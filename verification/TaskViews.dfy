/**
 The task hierarchy on the clients: the upward walk and the progress count of the desktop
 (apps/desktop/src/renderer/state/relay-state.ts) and the depth-first order of the phone
 (apps/mobile/src/screens/TasksScreen.tsx). Ids are unique; beyond that nothing is assumed: parents may
 be missing and parent links may run in circles, unless a statement says otherwise.
 */
module TaskViews {
  import opened Wrappers

  datatype Task = Task(id: Id, parent: Option<Id>, createdAt: int, completed: bool)

  ghost predicate UniqueIds(tasks: seq<Task>) {
    forall i, j {:trigger Differ(tasks, i, j)} :: 0 <= i < j < |tasks| ==> Differ(tasks, i, j)
  }

  predicate Differ(tasks: seq<Task>, i: int, j: int)
    requires 0 <= i < |tasks| && 0 <= j < |tasks|
  {
    tasks[i].id != tasks[j].id
  }

  /** `tasks.find(({ id }) => id === ...)`. */
  function Lookup(tasks: seq<Task>, id: Id): (r: Option<Task>)
    ensures r.Some? ==> r.value in tasks && r.value.id == id
    ensures r.None? ==> forall t :: t in tasks ==> t.id != id
  {
    if tasks == [] then None
    else if tasks[0].id == id then Some(tasks[0])
    else Lookup(tasks[1..], id)
  }

  lemma LookupFinds(tasks: seq<Task>, t: Task)
    requires UniqueIds(tasks) && t in tasks
    ensures Lookup(tasks, t.id) == Some(t)
  {
    var u := Lookup(tasks, t.id).value;
    var i :| 0 <= i < |tasks| && tasks[i] == t;
    var j :| 0 <= j < |tasks| && tasks[j] == u;
    assert i < j ==> Differ(tasks, i, j);
    assert j < i ==> Differ(tasks, j, i);
  }

  lemma EarlierDiffer(tasks: seq<Task>, i: nat)
    requires UniqueIds(tasks) && i < |tasks|
    ensures forall t :: t in tasks[..i] ==> t.id != tasks[i].id
  {
    forall k | 0 <= k < i
      ensures tasks[..i][k].id != tasks[i].id
    {
      assert Differ(tasks, k, i);
    }
  }

  lemma LaterDiffer(tasks: seq<Task>)
    requires UniqueIds(tasks) && tasks != []
    ensures UniqueIds(tasks[1..]) && forall t :: t in tasks[1..] ==> t.id != tasks[0].id
  {
    forall i, j | 0 <= i < j < |tasks| - 1
      ensures Differ(tasks[1..], i, j)
    {
      assert Differ(tasks, i + 1, j + 1);
    }
    forall k | 0 <= k < |tasks| - 1
      ensures tasks[1..][k].id != tasks[0].id
    {
      assert Differ(tasks, 0, k + 1);
    }
  }

  lemma UniqueDistinct(tasks: seq<Task>)
    requires UniqueIds(tasks)
    ensures Distinct(tasks)
  {
    forall i, j | 0 <= i < j < |tasks|
      ensures tasks[i] != tasks[j]
    {
      assert Differ(tasks, i, j);
    }
  }

  // ---------- parent links ----------

  /** `k` parent links lead from `t` to the id `to`; every task on the way but the last is present. */
  predicate Leads(tasks: seq<Task>, t: Task, to: Id, k: nat)
    decreases k
  {
    && k > 0
    && t.parent.Some?
    && if k == 1 then t.parent.value == to
       else
         var parent := Lookup(tasks, t.parent.value);
         parent.Some? && Leads(tasks, parent.value, to, k - 1)
  }

  /** `t` lies below `root`. */
  ghost predicate Descends(tasks: seq<Task>, t: Task, root: Id) {
    exists k: nat :: Leads(tasks, t, root, k)
  }

  lemma {:induction false} LeadsOn(tasks: seq<Task>, t: Task, m: Task, to: Id, j: nat, k: nat)
    requires Leads(tasks, t, m.id, j) && Lookup(tasks, m.id) == Some(m) && Leads(tasks, m, to, k)
    ensures Leads(tasks, t, to, j + k)
    decreases j
  {
    if j > 1 {
      LeadsOn(tasks, Lookup(tasks, t.parent.value).value, m, to, j - 1, k);
    }
  }

  /** Parent links form one line: of two ids above a task, the nearer leads to the farther. */
  lemma {:induction false} LeadsLine(tasks: seq<Task>, t: Task, a: Id, b: Id, j: nat, k: nat)
    requires Leads(tasks, t, a, j) && Leads(tasks, t, b, k) && j <= k
    ensures j == k ==> a == b
    ensures j < k ==> Lookup(tasks, a).Some? && Leads(tasks, Lookup(tasks, a).value, b, k - j)
    decreases j
  {
    if j > 1 {
      LeadsLine(tasks, Lookup(tasks, t.parent.value).value, a, b, j - 1, k - 1);
    }
  }

  /** The last link: whatever lies below `root` is a child of it or lies below one. */
  lemma {:induction false} LastLink(tasks: seq<Task>, t: Task, root: Id, k: nat) returns (child: Task)
    requires t in tasks && Leads(tasks, t, root, k)
    ensures child in tasks && child.parent == Some(root)
    ensures if k == 1 then child == t else Leads(tasks, t, child.id, k - 1)
    decreases k
  {
    if k == 1 {
      child := t;
    } else {
      var parent := Lookup(tasks, t.parent.value).value;
      child := LastLink(tasks, parent, root, k - 1);
    }
  }

  lemma ChildBelow(tasks: seq<Task>, t: Task, child: Task, root: Id)
    requires UniqueIds(tasks) && child in tasks && child.parent == Some(root)
    requires t == child || Descends(tasks, t, child.id)
    ensures Descends(tasks, t, root)
  {
    LookupFinds(tasks, child);
    assert Leads(tasks, child, root, 1);
    if t != child {
      var j: nat :| Leads(tasks, t, child.id, j);
      LeadsOn(tasks, t, child, root, j, 1);
    }
  }

  // ---------- the upward walk ----------

  function Ids(tasks: seq<Task>): set<Id> { set t | t in tasks :: t.id }

  /** A visited task has a parent other than `root`, and that parent was visited too, or is the current task. */
  ghost predicate Passed(tasks: seq<Task>, root: Id, visited: set<Id>, current: Id) {
    forall v :: v in visited ==>
      && Lookup(tasks, v).Some?
      && Lookup(tasks, v).value.parent.Some?
      && Lookup(tasks, v).value.parent.value != root
      && (Lookup(tasks, v).value.parent.value in visited || Lookup(tasks, v).value.parent.value == current)
  }

  lemma {:induction false} CircleNeverLeads(tasks: seq<Task>, root: Id, visited: set<Id>, t: Task, k: nat)
    requires Lookup(tasks, t.id) == Some(t) && t.id in visited && Passed(tasks, root, visited, t.id)
    requires forall v :: v in visited ==> Lookup(tasks, v).value.parent.value in visited
    ensures !Leads(tasks, t, root, k)
    decreases k
  {
    if k > 1 {
      var p := t.parent.value;
      CircleNeverLeads(tasks, root, visited, Lookup(tasks, p).value, k - 1);
    }
  }

  lemma StepUp(tasks: seq<Task>, t: Task, root: Id)
    requires t.parent.Some? && t.parent.value != root
    ensures Lookup(tasks, t.parent.value).None? ==> !Descends(tasks, t, root)
    ensures Lookup(tasks, t.parent.value).Some? ==>
      (Descends(tasks, t, root) <==> Descends(tasks, Lookup(tasks, t.parent.value).value, root))
  {
    var parent := Lookup(tasks, t.parent.value);
    forall k: nat | Leads(tasks, t, root, k)
      ensures parent.Some? && Leads(tasks, parent.value, root, k - 1)
    {
    }
    if parent.Some? {
      forall k: nat | Leads(tasks, parent.value, root, k)
        ensures Leads(tasks, t, root, k + 1)
      {
      }
    }
  }

  /** `isDescendant`: terminates on any data, and answers exactly whether parent links lead to the root. */
  method IsDescendant(tasks: seq<Task>, task: Task, root: Id) returns (r: bool)
    requires UniqueIds(tasks) && task in tasks
    ensures r <==> Descends(tasks, task, root)
  {
    var current := task;
    var visited: set<Id> := {};
    LookupFinds(tasks, task);
    while current.parent.Some? && current.id !in visited
      invariant Lookup(tasks, current.id) == Some(current)
      invariant visited <= Ids(tasks)
      invariant Passed(tasks, root, visited, current.id)
      invariant Descends(tasks, task, root) <==> Descends(tasks, current, root)
      decreases Ids(tasks) - visited
    {
      if current.parent.value == root {
        assert Leads(tasks, current, root, 1);
        return true;
      }
      StepUp(tasks, current, root);
      visited := visited + {current.id};
      var parent := Lookup(tasks, current.parent.value);
      if parent.None? {
        return false;
      }
      LookupFinds(tasks, parent.value);
      current := parent.value;
    }
    if current.id in visited {
      forall k: nat ensures !Leads(tasks, current, root, k) {
        CircleNeverLeads(tasks, root, visited, current, k);
      }
    }
    r := false;
  }

  // ---------- progress ----------

  ghost predicate Within(tasks: seq<Task>, t: Task, root: Id) {
    t.id == root || Descends(tasks, t, root)
  }

  /** The ids of the tasks among `some` that are `root` or lie below it. */
  ghost function UnderAmong(tasks: seq<Task>, some: seq<Task>, root: Id): set<Id> {
    set t | t in some && Within(tasks, t, root) :: t.id
  }

  /** The ids that `taskProgress` counts. */
  ghost function Under(tasks: seq<Task>, root: Id): set<Id> {
    UnderAmong(tasks, tasks, root)
  }

  ghost function Done(tasks: seq<Task>): set<Id> {
    set t | t in tasks && t.completed :: t.id
  }

  lemma OneMoreUnder(tasks: seq<Task>, root: Id, i: nat)
    requires i < |tasks| && UniqueIds(tasks)
    ensures tasks[i].id !in UnderAmong(tasks, tasks[..i], root)
    ensures UnderAmong(tasks, tasks[..i + 1], root) ==
            UnderAmong(tasks, tasks[..i], root) + (if Within(tasks, tasks[i], root) then {tasks[i].id} else {})
  {
    EarlierDiffer(tasks, i);
    assert tasks[..i + 1] == tasks[..i] + [tasks[i]];
  }

  lemma OneMoreDone(tasks: seq<Task>, i: nat)
    requires i < |tasks| && UniqueIds(tasks)
    ensures tasks[i].id !in Done(tasks[..i])
    ensures Done(tasks[..i + 1]) == Done(tasks[..i]) + (if tasks[i].completed then {tasks[i].id} else {})
  {
    EarlierDiffer(tasks, i);
    assert tasks[..i + 1] == tasks[..i] + [tasks[i]];
  }

  lemma Grow<T>(under: set<T>, done: set<T>, x: T, a: bool, b: bool)
    requires x !in under && x !in done
    ensures |under + (if a then {x} else {})| == |under| + (if a then 1 else 0)
    ensures |(under + (if a then {x} else {})) * (done + (if b then {x} else {}))| ==
            |under * done| + (if a && b then 1 else 0)
  {
    var both := (under + (if a then {x} else {})) * (done + (if b then {x} else {}));
    if a && b {
      assert both == under * done + {x};
    } else {
      assert both == under * done;
    }
  }

  lemma OneMore(tasks: seq<Task>, root: Id, i: nat)
    requires i < |tasks| && UniqueIds(tasks)
    ensures |UnderAmong(tasks, tasks[..i + 1], root)| ==
            |UnderAmong(tasks, tasks[..i], root)| + (if Within(tasks, tasks[i], root) then 1 else 0)
    ensures |UnderAmong(tasks, tasks[..i + 1], root) * Done(tasks[..i + 1])| ==
            |UnderAmong(tasks, tasks[..i], root) * Done(tasks[..i])|
            + (if Within(tasks, tasks[i], root) && tasks[i].completed then 1 else 0)
  {
    OneMoreUnder(tasks, root, i);
    OneMoreDone(tasks, i);
    Grow(UnderAmong(tasks, tasks[..i], root), Done(tasks[..i]), tasks[i].id,
         Within(tasks, tasks[i], root), tasks[i].completed);
  }

  /** `taskProgress`: it counts every task at or below the root once, and the completed ones among them. */
  method TaskProgress(tasks: seq<Task>, root: Id) returns (complete: nat, total: nat)
    requires UniqueIds(tasks)
    ensures total == |Under(tasks, root)|
    ensures complete == |Under(tasks, root) * Done(tasks)|
  {
    complete, total := 0, 0;
    for i := 0 to |tasks|
      invariant total == |UnderAmong(tasks, tasks[..i], root)|
      invariant complete == |UnderAmong(tasks, tasks[..i], root) * Done(tasks[..i])|
    {
      var below := IsDescendant(tasks, tasks[i], root);
      OneMore(tasks, root, i);
      if tasks[i].id == root || below {
        total := total + 1;
        if tasks[i].completed {
          complete := complete + 1;
        }
      }
    }
    assert tasks[..|tasks|] == tasks;
  }

  // ---------- children ----------

  function WithParent(tasks: seq<Task>, parent: Option<Id>): (r: seq<Task>)
    ensures forall t {:trigger t in r} :: t in r <==> t in tasks && t.parent == parent
    ensures |r| <= |tasks|
  {
    if tasks == [] then []
    else (if tasks[0].parent == parent then [tasks[0]] else []) + WithParent(tasks[1..], parent)
  }

  predicate Distinct<T(==)>(s: seq<T>) {
    forall i, j :: 0 <= i < j < |s| ==> s[i] != s[j]
  }

  lemma {:induction false} WithParentDistinct(tasks: seq<Task>, parent: Option<Id>)
    requires UniqueIds(tasks)
    ensures Distinct(WithParent(tasks, parent))
  {
    if tasks != [] {
      LaterDiffer(tasks);
      WithParentDistinct(tasks[1..], parent);
      var rest := WithParent(tasks[1..], parent);
      assert forall i :: 0 <= i < |rest| ==> rest[i] in rest;
    }
  }

  function Insert(t: Task, sorted: seq<Task>): seq<Task> {
    if sorted == [] then [t]
    else if t.createdAt <= sorted[0].createdAt then [t] + sorted
    else [sorted[0]] + Insert(t, sorted[1..])
  }

  /** The stable sort by creation time. */
  function ByCreation(some: seq<Task>): seq<Task> {
    if some == [] then [] else Insert(some[0], ByCreation(some[1..]))
  }

  function TaskChildren(tasks: seq<Task>, parent: Option<Id>): seq<Task> {
    ByCreation(WithParent(tasks, parent))
  }

  predicate Ascending(s: seq<Task>) {
    forall i, j :: 0 <= i < j < |s| ==> s[i].createdAt <= s[j].createdAt
  }

  function CreatedAt(s: seq<Task>, at: int): seq<Task> {
    if s == [] then [] else (if s[0].createdAt == at then [s[0]] else []) + CreatedAt(s[1..], at)
  }

  lemma {:induction false} InsertAdds(t: Task, sorted: seq<Task>)
    ensures multiset(Insert(t, sorted)) == multiset(sorted) + multiset{t}
  {
    if sorted != [] && t.createdAt > sorted[0].createdAt {
      InsertAdds(t, sorted[1..]);
      assert sorted == [sorted[0]] + sorted[1..];
    }
  }

  lemma InsertedMember(t: Task, sorted: seq<Task>, x: Task)
    requires x in Insert(t, sorted)
    ensures x == t || x in sorted
  {
    InsertAdds(t, sorted);
    assert x in multiset(Insert(t, sorted));
  }

  /** Sorting rearranges. */
  lemma {:induction false} ByCreationRearranges(some: seq<Task>)
    ensures multiset(ByCreation(some)) == multiset(some)
  {
    if some != [] {
      ByCreationRearranges(some[1..]);
      InsertAdds(some[0], ByCreation(some[1..]));
      assert some == [some[0]] + some[1..];
    }
  }

  lemma {:induction false} InsertAscending(t: Task, sorted: seq<Task>)
    requires Ascending(sorted)
    ensures Ascending(Insert(t, sorted))
  {
    if sorted != [] && t.createdAt > sorted[0].createdAt {
      InsertAscending(t, sorted[1..]);
      var rest := Insert(t, sorted[1..]);
      forall i | 0 <= i < |rest|
        ensures sorted[0].createdAt <= rest[i].createdAt
      {
        InsertedMember(t, sorted[1..], rest[i]);
      }
    }
  }

  lemma CreatedAtCons(x: Task, rest: seq<Task>, at: int)
    ensures CreatedAt([x] + rest, at) == if x.createdAt == at then [x] + CreatedAt(rest, at) else CreatedAt(rest, at)
  {
    assert ([x] + rest)[1..] == rest;
  }

  lemma {:induction false} InsertKeepsTies(t: Task, sorted: seq<Task>, at: int)
    ensures CreatedAt(Insert(t, sorted), at) ==
            if t.createdAt == at then [t] + CreatedAt(sorted, at) else CreatedAt(sorted, at)
  {
    if sorted != [] && t.createdAt > sorted[0].createdAt {
      var x, rest := sorted[0], sorted[1..];
      InsertKeepsTies(t, rest, at);
      CreatedAtCons(x, Insert(t, rest), at);
      CreatedAtCons(x, rest, at);
      assert sorted == [x] + rest;
      assert Insert(t, sorted) == [x] + Insert(t, rest);
    } else {
      CreatedAtCons(t, sorted, at);
    }
  }

  /** Children are in creation order. */
  lemma {:induction false} ChildrenInOrder(some: seq<Task>)
    ensures Ascending(ByCreation(some))
  {
    if some != [] {
      ChildrenInOrder(some[1..]);
      InsertAscending(some[0], ByCreation(some[1..]));
    }
  }

  /** Children created together keep the order of the task list. */
  lemma {:induction false} ChildrenKeepTies(some: seq<Task>, at: int)
    ensures CreatedAt(ByCreation(some), at) == CreatedAt(some, at)
  {
    if some != [] {
      ChildrenKeepTies(some[1..], at);
      InsertKeepsTies(some[0], ByCreation(some[1..]), at);
    }
  }

  lemma {:induction false} DistinctCounts<T>(s: seq<T>, x: T)
    ensures x in s <==> multiset(s)[x] > 0
    ensures Distinct(s) ==> multiset(s)[x] <= 1
  {
    if s != [] {
      assert s == [s[0]] + s[1..];
      DistinctCounts(s[1..], x);
    }
  }

  lemma SameCountsDistinct<T>(s: seq<T>, r: seq<T>)
    requires Distinct(s) && multiset(r) == multiset(s)
    ensures Distinct(r)
  {
    forall i, j | 0 <= i < j < |r|
      ensures r[i] != r[j]
    {
      DistinctCounts(s, r[i]);
      assert r == r[..j] + r[j..];
      assert r[i] in r[..j];
      assert r[j] in r[j..];
    }
  }

  // ---------- progress adds up ----------

  ghost predicate OnCircle(tasks: seq<Task>, id: Id) {
    Lookup(tasks, id).Some? && Descends(tasks, Lookup(tasks, id).value, id)
  }

  /** A task below two children of `root` puts `root` below itself. */
  lemma TwoBranches(tasks: seq<Task>, t: Task, a: Task, b: Task, root: Id, j: nat, k: nat)
    requires UniqueIds(tasks) && t in tasks && a in tasks && b in tasks && a.id != b.id
    requires a.parent == b.parent == Some(root) && j <= k
    requires if j == 0 then t == a else Leads(tasks, t, a.id, j)
    requires if k == 0 then t == b else Leads(tasks, t, b.id, k)
    ensures OnCircle(tasks, root)
  {
    LookupFinds(tasks, a);
    LookupFinds(tasks, b);
    if j > 0 {
      LeadsLine(tasks, t, a.id, b.id, j, k);
    }
    assert Leads(tasks, a, b.id, k - j);
    assert Leads(tasks, b, root, 1);
    LeadsOn(tasks, a, b, root, k - j, 1);
    assert Leads(tasks, a, root, 1);
    LeadsLine(tasks, a, root, root, 1, k - j + 1);
  }

  lemma BranchesApart(tasks: seq<Task>, a: Task, b: Task, root: Id)
    requires UniqueIds(tasks) && a in tasks && b in tasks && a != b
    requires a.parent == b.parent == Some(root) && !OnCircle(tasks, root)
    ensures Under(tasks, a.id) !! Under(tasks, b.id)
  {
    LookupFinds(tasks, a);
    LookupFinds(tasks, b);
    forall id | id in Under(tasks, a.id) && id in Under(tasks, b.id)
      ensures false
    {
      var t :| t in tasks && Within(tasks, t, a.id) && t.id == id;
      var u :| u in tasks && Within(tasks, u, b.id) && u.id == id;
      LookupFinds(tasks, t);
      LookupFinds(tasks, u);
      var j: nat :| if j == 0 then t == a else Leads(tasks, t, a.id, j);
      var k: nat :| if k == 0 then t == b else Leads(tasks, t, b.id, k);
      if j <= k {
        TwoBranches(tasks, t, a, b, root, j, k);
      } else {
        TwoBranches(tasks, t, b, a, root, k, j);
      }
    }
  }

  /** The tasks of `some` that are counted, added up over the progress of each of `kids`. */
  ghost function SumOver(tasks: seq<Task>, kids: seq<Task>, some: set<Id>): nat {
    if kids == [] then 0 else |Under(tasks, kids[0].id) * some| + SumOver(tasks, kids[1..], some)
  }

  ghost function UnderAny(tasks: seq<Task>, kids: seq<Task>): set<Id> {
    if kids == [] then {} else Under(tasks, kids[0].id) + UnderAny(tasks, kids[1..])
  }

  lemma {:induction false} UnderAnyMembers(tasks: seq<Task>, kids: seq<Task>, id: Id)
    ensures id in UnderAny(tasks, kids) <==> exists c :: c in kids && id in Under(tasks, c.id)
  {
    if kids != [] {
      UnderAnyMembers(tasks, kids[1..], id);
      assert kids == [kids[0]] + kids[1..];
    }
  }

  lemma UnionCount<T>(a: set<T>, b: set<T>, c: set<T>)
    ensures |(a + b) * c| <= |a * c| + |b * c|
    ensures a !! b ==> |(a + b) * c| == |a * c| + |b * c|
  {
    assert (a + b) * c == a * c + b * c;
  }

  lemma {:induction false} SumAtLeastUnion(tasks: seq<Task>, kids: seq<Task>, some: set<Id>)
    ensures |UnderAny(tasks, kids) * some| <= SumOver(tasks, kids, some)
  {
    if kids == [] {
      assert UnderAny(tasks, kids) * some == {};
    } else {
      SumAtLeastUnion(tasks, kids[1..], some);
      UnionCount(Under(tasks, kids[0].id), UnderAny(tasks, kids[1..]), some);
    }
  }

  lemma {:induction false} SumIsUnion(tasks: seq<Task>, kids: seq<Task>, root: Id, some: set<Id>)
    requires UniqueIds(tasks) && Distinct(kids) && !OnCircle(tasks, root)
    requires forall c :: c in kids ==> c in tasks && c.parent == Some(root)
    ensures |UnderAny(tasks, kids) * some| == SumOver(tasks, kids, some)
  {
    if kids == [] {
      assert UnderAny(tasks, kids) * some == {};
    } else {
      SumIsUnion(tasks, kids[1..], root, some);
      forall id | id in Under(tasks, kids[0].id)
        ensures id !in UnderAny(tasks, kids[1..])
      {
        UnderAnyMembers(tasks, kids[1..], id);
        forall c | c in kids[1..]
          ensures id !in Under(tasks, c.id)
        {
          BranchesApart(tasks, kids[0], c, root);
        }
      }
      UnionCount(Under(tasks, kids[0].id), UnderAny(tasks, kids[1..]), some);
    }
  }

  /** Everything at or below `root` is `root` itself or at or below one of its children. */
  lemma Branches(tasks: seq<Task>, kids: seq<Task>, root: Id)
    requires UniqueIds(tasks)
    requires forall c :: c in kids <==> c in tasks && c.parent == Some(root)
    ensures Under(tasks, root) == {root} * Ids(tasks) + UnderAny(tasks, kids)
    ensures root in UnderAny(tasks, kids) <==> OnCircle(tasks, root)
  {
    forall t | t in tasks
      ensures t.id in UnderAny(tasks, kids) <==> Descends(tasks, t, root)
    {
      BranchOf(tasks, kids, t, root);
    }
    forall id | id in UnderAny(tasks, kids)
      ensures id in Ids(tasks)
    {
      UnderAnyMembers(tasks, kids, id);
    }
    if t :| t in tasks && t.id == root {
      LookupFinds(tasks, t);
    }
  }

  lemma BranchOf(tasks: seq<Task>, kids: seq<Task>, t: Task, root: Id)
    requires UniqueIds(tasks) && t in tasks
    requires forall c :: c in kids <==> c in tasks && c.parent == Some(root)
    ensures t.id in UnderAny(tasks, kids) <==> Descends(tasks, t, root)
  {
    UnderAnyMembers(tasks, kids, t.id);
    if t.id in UnderAny(tasks, kids) {
      var c :| c in kids && t.id in Under(tasks, c.id);
      var u :| u in tasks && Within(tasks, u, c.id) && u.id == t.id;
      LookupFinds(tasks, t);
      LookupFinds(tasks, u);
      LookupFinds(tasks, c);
      ChildBelow(tasks, t, c, root);
    }
    if Descends(tasks, t, root) {
      var k: nat :| Leads(tasks, t, root, k);
      var c := LastLink(tasks, t, root, k);
      assert Within(tasks, t, c.id);
      assert c in kids && t.id in Under(tasks, c.id);
    }
  }

  /**
   The recursive reading of progress: a task that is not below itself counts once, and its children's
   progress adds up to the rest, for the total (`some` all ids) and for the completed ones alike. A task
   on a circle of parent links is where the total stops adding up, and the only place.
   */
  lemma ProgressAddsUp(tasks: seq<Task>, root: Id, some: set<Id>)
    requires UniqueIds(tasks)
    ensures !OnCircle(tasks, root) ==>
      |Under(tasks, root) * some| ==
      |{root} * Ids(tasks) * some| + SumOver(tasks, TaskChildren(tasks, Some(root)), some)
    ensures |Under(tasks, root)| ==
            |{root} * Ids(tasks)| + SumOver(tasks, TaskChildren(tasks, Some(root)), Ids(tasks))
            <==> !OnCircle(tasks, root)
  {
    var kids := TaskChildren(tasks, Some(root));
    ChildrenAre(tasks, Some(root));
    if !OnCircle(tasks, root) {
      AddsUpOffCircle(tasks, kids, root, some);
      AddsUpOffCircle(tasks, kids, root, Ids(tasks));
      assert Under(tasks, root) * Ids(tasks) == Under(tasks, root);
      assert {root} * Ids(tasks) * Ids(tasks) == {root} * Ids(tasks);
    } else {
      TooMuchOnCircle(tasks, kids, root);
    }
  }

  /** `taskChildren` lists exactly the tasks with that parent, or without one, each once. */
  lemma ChildrenAre(tasks: seq<Task>, parent: Option<Id>)
    requires UniqueIds(tasks)
    ensures Distinct(TaskChildren(tasks, parent))
    ensures forall c {:trigger c in TaskChildren(tasks, parent)} ::
      c in TaskChildren(tasks, parent) <==> c in tasks && c.parent == parent
  {
    var found, kids := WithParent(tasks, parent), TaskChildren(tasks, parent);
    WithParentDistinct(tasks, parent);
    ByCreationRearranges(found);
    SameCountsDistinct(found, kids);
    forall c
      ensures c in kids <==> c in found
    {
      assert c in multiset(kids) <==> c in multiset(found);
    }
  }

  lemma TooMuchOnCircle(tasks: seq<Task>, kids: seq<Task>, root: Id)
    requires UniqueIds(tasks) && OnCircle(tasks, root)
    requires forall c :: c in kids <==> c in tasks && c.parent == Some(root)
    ensures |Under(tasks, root)| < |{root} * Ids(tasks)| + SumOver(tasks, kids, Ids(tasks))
  {
    Branches(tasks, kids, root);
    SumAtLeastUnion(tasks, kids, Ids(tasks));
    assert UnderAny(tasks, kids) * Ids(tasks) == UnderAny(tasks, kids) == Under(tasks, root);
    assert {root} * Ids(tasks) == {root};
  }

  lemma AddsUpOffCircle(tasks: seq<Task>, kids: seq<Task>, root: Id, some: set<Id>)
    requires UniqueIds(tasks) && Distinct(kids) && !OnCircle(tasks, root)
    requires forall c :: c in kids <==> c in tasks && c.parent == Some(root)
    ensures |Under(tasks, root) * some| == |{root} * Ids(tasks) * some| + SumOver(tasks, kids, some)
  {
    Branches(tasks, kids, root);
    SumIsUnion(tasks, kids, root, some);
    UnionCount({root} * Ids(tasks), UnderAny(tasks, kids), some);
  }

  // ---------- the depth-first order ----------

  /** `t` has exactly `d` tasks above it, the topmost without a parent. */
  predicate At(tasks: seq<Task>, t: Task, d: nat)
    decreases d
  {
    if d == 0 then t.parent.None?
    else
      && t.parent.Some?
      && Lookup(tasks, t.parent.value).Some?
      && At(tasks, Lookup(tasks, t.parent.value).value, d - 1)
  }

  ghost predicate Rooted(tasks: seq<Task>, t: Task) {
    exists d: nat :: At(tasks, t, d)
  }

  lemma {:induction false} OneDepth(tasks: seq<Task>, t: Task, d: nat, e: nat)
    requires At(tasks, t, d) && At(tasks, t, e)
    ensures d == e
    decreases d
  {
    if d > 0 && e > 0 {
      OneDepth(tasks, Lookup(tasks, t.parent.value).value, d - 1, e - 1);
    }
  }

  lemma {:induction false} DepthBelow(tasks: seq<Task>, t: Task, a: Task, d: nat, k: nat)
    requires Leads(tasks, t, a.id, k) && Lookup(tasks, a.id) == Some(a) && At(tasks, a, d)
    ensures At(tasks, t, d + k)
    decreases k
  {
    if k > 1 {
      DepthBelow(tasks, Lookup(tasks, t.parent.value).value, a, d, k - 1);
    }
  }

  /** The ids of a task and of everything above it. */
  ghost function Upward(tasks: seq<Task>, t: Task, d: nat): set<Id>
    requires At(tasks, t, d)
    decreases d
  {
    {t.id} + if d == 0 then {} else Upward(tasks, Lookup(tasks, t.parent.value).value, d - 1)
  }

  lemma {:induction false} UpwardDepth(tasks: seq<Task>, t: Task, d: nat, id: Id) returns (e: nat)
    requires Lookup(tasks, t.id) == Some(t) && At(tasks, t, d) && id in Upward(tasks, t, d)
    ensures e <= d && Lookup(tasks, id).Some? && At(tasks, Lookup(tasks, id).value, e)
    decreases d
  {
    e := d;
    if id != t.id {
      e := UpwardDepth(tasks, Lookup(tasks, t.parent.value).value, d - 1, id);
    }
  }

  lemma NotAboveItself(tasks: seq<Task>, t: Task, d: nat)
    requires Lookup(tasks, t.id) == Some(t) && At(tasks, t, d) && d > 0
    ensures t.id !in Upward(tasks, Lookup(tasks, t.parent.value).value, d - 1)
  {
    var parent := Lookup(tasks, t.parent.value).value;
    if t.id in Upward(tasks, parent, d - 1) {
      var e := UpwardDepth(tasks, parent, d - 1, t.id);
      OneDepth(tasks, t, d, e);
      assert false;
    }
  }

  lemma AddOne<T>(s: set<T>, x: T)
    requires x !in s
    ensures |{x} + s| == |s| + 1
  {
    assert {x} + s == s + {x};
  }

  lemma {:induction false} UpwardCount(tasks: seq<Task>, t: Task, d: nat)
    requires Lookup(tasks, t.id) == Some(t) && At(tasks, t, d)
    ensures |Upward(tasks, t, d)| == d + 1
    decreases d
  {
    if d > 0 {
      var parent := Lookup(tasks, t.parent.value).value;
      UpwardCount(tasks, parent, d - 1);
      NotAboveItself(tasks, t, d);
      AddOne(Upward(tasks, parent, d - 1), t.id);
    } else {
      AddOne({}, t.id);
    }
  }

  lemma {:induction false} UpwardPresent(tasks: seq<Task>, t: Task, d: nat, id: Id)
    requires t in tasks && At(tasks, t, d) && id in Upward(tasks, t, d)
    ensures id in Ids(tasks)
    decreases d
  {
    if id != t.id {
      UpwardPresent(tasks, Lookup(tasks, t.parent.value).value, d - 1, id);
    }
  }

  lemma {:induction false} IdCount(tasks: seq<Task>)
    ensures |Ids(tasks)| <= |tasks|
  {
    if tasks == [] {
      assert Ids(tasks) == {};
    } else {
      assert tasks == [tasks[0]] + tasks[1..];
      assert Ids(tasks) == {tasks[0].id} + Ids(tasks[1..]);
      IdCount(tasks[1..]);
    }
  }

  /** No task is as deep as there are tasks. */
  lemma DepthBound(tasks: seq<Task>, t: Task, d: nat)
    requires UniqueIds(tasks) && t in tasks && At(tasks, t, d)
    ensures d < |tasks|
  {
    LookupFinds(tasks, t);
    UpwardCount(tasks, t, d);
    forall id | id in Upward(tasks, t, d)
      ensures id in Ids(tasks)
    {
      UpwardPresent(tasks, t, d, id);
    }
    IdCount(tasks);
    SubsetSize(Upward(tasks, t, d), Ids(tasks));
  }

  predicate Siblings(tasks: seq<Task>, kids: seq<Task>, d: nat) {
    forall i :: 0 <= i < |kids| ==> kids[i] in tasks && At(tasks, kids[i], d)
  }

  /** What visiting a task lists: the task, then the listings of its children. */
  function Block(tasks: seq<Task>, t: Task, d: nat): seq<Task>
    requires UniqueIds(tasks) && t in tasks && At(tasks, t, d)
    decreases |tasks| - d, 0
  {
    DepthBound(tasks, t, d);
    ChildrenAt(tasks, t, d);
    [t] + Blocks(tasks, WithParent(tasks, Some(t.id)), d + 1)
  }

  function Blocks(tasks: seq<Task>, kids: seq<Task>, d: nat): seq<Task>
    requires UniqueIds(tasks) && Siblings(tasks, kids, d)
    decreases |tasks| - d, |kids|
  {
    if kids == [] then []
    else Block(tasks, kids[0], d) + Blocks(tasks, kids[1..], d)
  }

  lemma ChildrenAt(tasks: seq<Task>, t: Task, d: nat)
    requires UniqueIds(tasks) && t in tasks && At(tasks, t, d)
    ensures Siblings(tasks, WithParent(tasks, Some(t.id)), d + 1)
  {
    LookupFinds(tasks, t);
    var kids := WithParent(tasks, Some(t.id));
    assert forall i :: 0 <= i < |kids| ==> kids[i] in kids;
  }

  lemma RootsAt(tasks: seq<Task>)
    ensures Siblings(tasks, WithParent(tasks, None), 0)
  {
    var roots := WithParent(tasks, None);
    assert forall i :: 0 <= i < |roots| ==> roots[i] in roots;
  }

  lemma BlockParts(tasks: seq<Task>, t: Task, d: nat)
    requires UniqueIds(tasks) && t in tasks && At(tasks, t, d)
    ensures d < |tasks| && Siblings(tasks, WithParent(tasks, Some(t.id)), d + 1)
    ensures Block(tasks, t, d) == [t] + Blocks(tasks, WithParent(tasks, Some(t.id)), d + 1)
  {
    DepthBound(tasks, t, d);
    ChildrenAt(tasks, t, d);
  }

  /** A block holds exactly the task and what lies below it. */
  lemma {:induction false} BlockMembers(tasks: seq<Task>, t: Task, d: nat, x: Task)
    requires UniqueIds(tasks) && t in tasks && At(tasks, t, d)
    ensures x in Block(tasks, t, d) <==> x in tasks && Within(tasks, x, t.id)
    decreases |tasks| - d, 0, 1
  {
    BlockParts(tasks, t, d);
    BelowMembers(tasks, t, d, x);
    if x in tasks {
      LookupFinds(tasks, t);
      LookupFinds(tasks, x);
    }
  }

  lemma {:induction false} BelowMembers(tasks: seq<Task>, t: Task, d: nat, x: Task)
    requires UniqueIds(tasks) && t in tasks && At(tasks, t, d)
    requires Siblings(tasks, WithParent(tasks, Some(t.id)), d + 1)
    ensures x in Blocks(tasks, WithParent(tasks, Some(t.id)), d + 1) <==> x in tasks && Descends(tasks, x, t.id)
    decreases |tasks| - d, 0, 0
  {
    DepthBound(tasks, t, d);
    var kids := WithParent(tasks, Some(t.id));
    BlocksMembers(tasks, kids, d + 1, x);
    if x in tasks {
      LookupFinds(tasks, t);
      if c :| c in kids && Within(tasks, x, c.id) {
        LookupFinds(tasks, c);
        LookupFinds(tasks, x);
        ChildBelow(tasks, x, c, t.id);
      }
      if Descends(tasks, x, t.id) {
        var k: nat :| Leads(tasks, x, t.id, k);
        var c := LastLink(tasks, x, t.id, k);
        assert c in kids && Within(tasks, x, c.id);
      }
    }
  }

  lemma {:induction false} BlocksMembers(tasks: seq<Task>, kids: seq<Task>, d: nat, x: Task)
    requires UniqueIds(tasks) && Siblings(tasks, kids, d)
    ensures x in Blocks(tasks, kids, d) <==> x in tasks && exists c :: c in kids && Within(tasks, x, c.id)
    decreases |tasks| - d, |kids|, 0
  {
    if kids != [] {
      BlockMembers(tasks, kids[0], d, x);
      BlocksMembers(tasks, kids[1..], d, x);
      assert kids == [kids[0]] + kids[1..];
    }
  }

  /** Tasks of one depth have nothing in common below them. */
  lemma SameDepthApart(tasks: seq<Task>, x: Task, a: Task, b: Task, d: nat)
    requires UniqueIds(tasks) && x in tasks && a in tasks && b in tasks
    requires At(tasks, a, d) && At(tasks, b, d) && Within(tasks, x, a.id) && Within(tasks, x, b.id)
    ensures a == b
  {
    LookupFinds(tasks, x);
    LookupFinds(tasks, a);
    LookupFinds(tasks, b);
    var j: nat :| if j == 0 then x == a else Leads(tasks, x, a.id, j);
    var k: nat :| if k == 0 then x == b else Leads(tasks, x, b.id, k);
    if j > 0 { DepthBelow(tasks, x, a, d, j); }
    if k > 0 { DepthBelow(tasks, x, b, d, k); }
    OneDepth(tasks, x, d + j, d + k);
    if j > 0 { LeadsLine(tasks, x, a.id, b.id, j, k); }
  }

  lemma DistinctCons<T>(whole: seq<T>, x: T, rest: seq<T>)
    requires whole == [x] + rest && x !in rest && Distinct(rest)
    ensures Distinct(whole)
  {
  }

  lemma DistinctConcat<T>(whole: seq<T>, a: seq<T>, b: seq<T>)
    requires whole == a + b && Distinct(a) && Distinct(b) && forall x :: x in a ==> x !in b
    ensures Distinct(whole)
  {
    forall i, j | 0 <= i < j < |a + b|
      ensures (a + b)[i] != (a + b)[j]
    {
      assert i < |a| ==> (a + b)[i] in a;
      assert j >= |a| ==> (a + b)[j] in b;
    }
  }

  lemma NotBelowDeeper(tasks: seq<Task>, t: Task, c: Task, d: nat, e: nat)
    requires UniqueIds(tasks) && t in tasks && c in tasks && At(tasks, t, d) && At(tasks, c, e) && d < e
    ensures !Within(tasks, t, c.id)
  {
    LookupFinds(tasks, c);
    LookupFinds(tasks, t);
    if t.id == c.id {
      OneDepth(tasks, t, d, e);
      assert false;
    }
    if Descends(tasks, t, c.id) {
      var k: nat :| Leads(tasks, t, c.id, k);
      DepthBelow(tasks, t, c, e, k);
      OneDepth(tasks, t, d, e + k);
      assert false;
    }
  }

  lemma {:induction false} NotAmongDeeper(tasks: seq<Task>, kids: seq<Task>, t: Task, d: nat, e: nat)
    requires UniqueIds(tasks) && t in tasks && At(tasks, t, d) && Siblings(tasks, kids, e) && d < e
    ensures t !in Blocks(tasks, kids, e)
  {
    if kids != [] {
      NotBelowDeeper(tasks, t, kids[0], d, e);
      BlockMembers(tasks, kids[0], e, t);
      NotAmongDeeper(tasks, kids[1..], t, d, e);
    }
  }

  lemma {:induction false} BlockDistinct(tasks: seq<Task>, t: Task, d: nat)
    requires UniqueIds(tasks) && t in tasks && At(tasks, t, d)
    ensures Distinct(Block(tasks, t, d))
    decreases |tasks| - d, 0
  {
    var kids := BlockKids(tasks, t, d);
    BlocksDistinct(tasks, kids, d + 1);
    NotAmongDeeper(tasks, kids, t, d, d + 1);
    DistinctCons(Block(tasks, t, d), t, Blocks(tasks, kids, d + 1));
  }

  lemma BlockKids(tasks: seq<Task>, t: Task, d: nat) returns (kids: seq<Task>)
    requires UniqueIds(tasks) && t in tasks && At(tasks, t, d)
    ensures d < |tasks| && Siblings(tasks, kids, d + 1) && Distinct(kids)
    ensures Block(tasks, t, d) == [t] + Blocks(tasks, kids, d + 1)
  {
    BlockParts(tasks, t, d);
    WithParentDistinct(tasks, Some(t.id));
    kids := WithParent(tasks, Some(t.id));
  }

  lemma {:induction false} BlocksDistinct(tasks: seq<Task>, kids: seq<Task>, d: nat)
    requires UniqueIds(tasks) && Siblings(tasks, kids, d) && Distinct(kids)
    ensures Distinct(Blocks(tasks, kids, d))
    decreases |tasks| - d, |kids|
  {
    if kids != [] {
      BlockDistinct(tasks, kids[0], d);
      BlocksDistinct(tasks, kids[1..], d);
      forall x | x in Block(tasks, kids[0], d)
        ensures x !in Blocks(tasks, kids[1..], d)
      {
        BlockMembers(tasks, kids[0], d, x);
        BlocksMembers(tasks, kids[1..], d, x);
        if c :| c in kids[1..] && Within(tasks, x, c.id) {
          SameDepthApart(tasks, x, kids[0], c, d);
          assert false;
        }
      }
      DistinctConcat(Blocks(tasks, kids, d), Block(tasks, kids[0], d), Blocks(tasks, kids[1..], d));
    }
  }

  /** The tasks of `tasks` not among `listed`, in order. */
  function Missing(tasks: seq<Task>, listed: seq<Task>): (r: seq<Task>)
    ensures forall t {:trigger t in r} :: t in r <==> t in tasks && t !in listed
  {
    if tasks == [] then []
    else (if tasks[0] in listed then [] else [tasks[0]]) + Missing(tasks[1..], listed)
  }

  lemma {:induction false} MissingDistinct(tasks: seq<Task>, listed: seq<Task>)
    requires UniqueIds(tasks)
    ensures Distinct(Missing(tasks, listed))
  {
    if tasks != [] {
      LaterDiffer(tasks);
      MissingDistinct(tasks[1..], listed);
      var rest := Missing(tasks[1..], listed);
      assert forall i :: 0 <= i < |rest| ==> rest[i] in rest;
    }
  }

  lemma MissingStep(tasks: seq<Task>, listed: seq<Task>, i: nat)
    requires i < |tasks|
    ensures Missing(tasks[i..], listed) ==
            if tasks[i] in listed then Missing(tasks[i + 1..], listed) else [tasks[i]] + Missing(tasks[i + 1..], listed)
  {
    assert tasks[i..][0] == tasks[i] && tasks[i..][1..] == tasks[i + 1..];
  }

  function FromRoots(tasks: seq<Task>): seq<Task>
    requires UniqueIds(tasks)
  {
    RootsAt(tasks);
    Blocks(tasks, WithParent(tasks, None), 0)
  }

  function Ordered(tasks: seq<Task>): seq<Task>
    requires UniqueIds(tasks)
  {
    FromRoots(tasks) + Missing(tasks, FromRoots(tasks))
  }

  predicate Joins<T(==)>(a: seq<T>, b: seq<T>, all: seq<T>) {
    a + b == all
  }

  lemma FirstBlock(tasks: seq<Task>, kids: seq<Task>, d: nat)
    requires UniqueIds(tasks) && kids != [] && Siblings(tasks, kids, d)
    ensures kids[0] in tasks && At(tasks, kids[0], d) && Siblings(tasks, kids[1..], d)
    ensures Blocks(tasks, kids, d) == Block(tasks, kids[0], d) + Blocks(tasks, kids[1..], d)
  {
  }

  lemma BlockVisited(tasks: seq<Task>, t: Task, d: nat, before: seq<Task>, after: seq<Task>)
    requires UniqueIds(tasks) && t in tasks && At(tasks, t, d)
    requires Siblings(tasks, WithParent(tasks, Some(t.id)), d + 1)
    requires after == before + [t] + Blocks(tasks, WithParent(tasks, Some(t.id)), d + 1)
    ensures after == before + Block(tasks, t, d)
  {
    Grouped(before, [t], Blocks(tasks, WithParent(tasks, Some(t.id)), d + 1));
  }

  /** The list under construction that the recursive visits share. */
  class TaskList {
    var result: seq<Task>

    constructor ()
      ensures result == []
    {
      result := [];
    }

    /** One level: each task with this parent in turn. */
    method Visit(tasks: seq<Task>, parent: Option<Id>, ghost d: nat)
      requires UniqueIds(tasks) && Siblings(tasks, WithParent(tasks, parent), d)
      modifies this
      ensures result == old(result) + Blocks(tasks, WithParent(tasks, parent), d)
      decreases |tasks| - d, 1
    {
      var rest := WithParent(tasks, parent);
      ghost var goal := result + Blocks(tasks, rest, d);
      while rest != []
        invariant Siblings(tasks, rest, d)
        invariant Joins(result, Blocks(tasks, rest, d), goal)
        decreases |rest|
      {
        FirstBlock(tasks, rest, d);
        ghost var before := result;
        VisitTask(tasks, rest[0], d);
        Grouped(before, Block(tasks, rest[0], d), Blocks(tasks, rest[1..], d));
        rest := rest[1..];
      }
    }

    method VisitTask(tasks: seq<Task>, t: Task, ghost d: nat)
      requires UniqueIds(tasks) && t in tasks && At(tasks, t, d)
      modifies this
      ensures result == old(result) + Block(tasks, t, d)
      decreases |tasks| - d, 0
    {
      DepthBound(tasks, t, d);
      ChildrenAt(tasks, t, d);
      ghost var before := result;
      result := result + [t];
      Visit(tasks, Some(t.id), d + 1);
      BlockVisited(tasks, t, d, before, result);
    }

    method NotListed(tasks: seq<Task>) returns (missing: seq<Task>)
      ensures missing == Missing(tasks, result)
    {
      missing := [];
      for i := 0 to |tasks|
        invariant Joins(missing, Missing(tasks[i..], result), Missing(tasks, result))
      {
        MissingStep(tasks, result, i);
        if tasks[i] !in result {
          Grouped(missing, [tasks[i]], Missing(tasks[i + 1..], result));
          missing := missing + [tasks[i]];
        }
      }
    }

    /** `orderedTasks`: ends on any data with unique ids, circles and missing parents included. */
    method Order(tasks: seq<Task>)
      requires UniqueIds(tasks) && result == []
      modifies this
      ensures result == Ordered(tasks)
    {
      RootsAt(tasks);
      Visit(tasks, None, 0);
      assert result == FromRoots(tasks);
      var missing := NotListed(tasks);
      result := result + missing;
    }
  }

  lemma {:induction false} FindRoot(tasks: seq<Task>, t: Task, d: nat) returns (root: Task)
    requires t in tasks && At(tasks, t, d)
    ensures root in tasks && root.parent.None?
    ensures if d == 0 then root == t else Leads(tasks, t, root.id, d)
    decreases d
  {
    root := t;
    if d > 0 {
      root := FindRoot(tasks, Lookup(tasks, t.parent.value).value, d - 1);
    }
  }

  /** From the roots, exactly the tasks are listed whose parent links end at a root. */
  lemma FromRootsMembers(tasks: seq<Task>, t: Task)
    requires UniqueIds(tasks)
    ensures t in FromRoots(tasks) <==> t in tasks && Rooted(tasks, t)
  {
    var roots := WithParent(tasks, None);
    RootsAt(tasks);
    BlocksMembers(tasks, roots, 0, t);
    if t in tasks {
      LookupFinds(tasks, t);
      if root :| root in roots && Within(tasks, t, root.id) {
        LookupFinds(tasks, root);
        assert At(tasks, root, 0);
        if Descends(tasks, t, root.id) {
          var k: nat :| Leads(tasks, t, root.id, k);
          DepthBelow(tasks, t, root, 0, k);
        }
      }
      if d: nat :| At(tasks, t, d) {
        var root := FindRoot(tasks, t, d);
        assert root in roots && Within(tasks, t, root.id);
      }
    }
  }

  lemma DistinctSame<T>(s: seq<T>, r: seq<T>)
    requires Distinct(s) && Distinct(r) && forall x :: x in s <==> x in r
    ensures multiset(s) == multiset(r)
  {
    forall x
      ensures multiset(s)[x] == multiset(r)[x]
    {
      DistinctCounts(s, x);
      DistinctCounts(r, x);
    }
  }

  /** Nothing is dropped or repeated; what no root leads to comes last, in the order it arrived in. */
  lemma OrderedIsPermutation(tasks: seq<Task>)
    requires UniqueIds(tasks)
    ensures multiset(Ordered(tasks)) == multiset(tasks)
    ensures |FromRoots(tasks)| <= |Ordered(tasks)|
    ensures forall t :: t in Ordered(tasks)[..|FromRoots(tasks)|] <==> t in tasks && Rooted(tasks, t)
    ensures Ordered(tasks)[|FromRoots(tasks)|..] == Missing(tasks, FromRoots(tasks))
  {
    var first := FromRoots(tasks);
    WithParentDistinct(tasks, None);
    RootsAt(tasks);
    BlocksDistinct(tasks, WithParent(tasks, None), 0);
    MissingDistinct(tasks, first);
    DistinctConcat(Ordered(tasks), first, Missing(tasks, first));
    forall t
      ensures t in first <==> t in tasks && Rooted(tasks, t)
    {
      FromRootsMembers(tasks, t);
    }
    UniqueDistinct(tasks);
    DistinctSame(Ordered(tasks), tasks);
  }

  /** Where a list stands in another: what comes before it and what comes after. */
  datatype Place<T> = Place(before: seq<T>, rest: seq<T>)

  predicate Holds<T(==)>(outer: seq<T>, inner: seq<T>, p: Place<T>) {
    outer == p.before + (inner + p.rest)
  }

  lemma HoldsLeft<T>(whole: seq<T>, a: seq<T>, b: seq<T>, inner: seq<T>, p: Place<T>)
    requires whole == a + b && Holds(a, inner, p)
    ensures Holds(whole, inner, Place(p.before, p.rest + b))
  {
    Grouped(p.before, inner + p.rest, b);
    Grouped(inner, p.rest, b);
  }

  lemma HoldsRight<T>(whole: seq<T>, a: seq<T>, b: seq<T>, inner: seq<T>, p: Place<T>)
    requires whole == a + b && Holds(b, inner, p)
    ensures Holds(whole, inner, Place(a + p.before, p.rest))
  {
    Grouped(a, p.before, inner + p.rest);
  }

  lemma {:induction false} FindInBlock(tasks: seq<Task>, a: Task, e: nat, t: Task, d: nat) returns (p: Place<Task>)
    requires UniqueIds(tasks) && a in tasks && At(tasks, a, e) && t in tasks && At(tasks, t, d)
    requires t in Block(tasks, a, e)
    ensures Holds(Block(tasks, a, e), Block(tasks, t, d), p)
    decreases |tasks| - e, 0
  {
    if t == a {
      OneDepth(tasks, t, d, e);
      p := Place([], []);
    } else {
      var kids, rest := BlockRest(tasks, a, e);
      p := FindInBlocks(tasks, kids, e + 1, t, d);
      HoldsRight(Block(tasks, a, e), [a], rest, Block(tasks, t, d), p);
      p := Place([a] + p.before, p.rest);
    }
  }

  lemma BlockRest(tasks: seq<Task>, t: Task, d: nat) returns (kids: seq<Task>, rest: seq<Task>)
    requires UniqueIds(tasks) && t in tasks && At(tasks, t, d)
    ensures d < |tasks| && Siblings(tasks, kids, d + 1) && rest == Blocks(tasks, kids, d + 1)
    ensures Block(tasks, t, d) == [t] + rest
    ensures forall x {:trigger x in rest} :: x in rest <==> x in tasks && Descends(tasks, x, t.id)
  {
    BlockParts(tasks, t, d);
    kids := WithParent(tasks, Some(t.id));
    rest := Blocks(tasks, kids, d + 1);
    forall x
      ensures x in rest <==> x in tasks && Descends(tasks, x, t.id)
    {
      BelowMembers(tasks, t, d, x);
    }
  }

  lemma {:induction false} FindInBlocks(tasks: seq<Task>, kids: seq<Task>, e: nat, t: Task, d: nat) returns (p: Place<Task>)
    requires UniqueIds(tasks) && Siblings(tasks, kids, e) && t in tasks && At(tasks, t, d)
    requires t in Blocks(tasks, kids, e)
    ensures Holds(Blocks(tasks, kids, e), Block(tasks, t, d), p)
    decreases |tasks| - e, |kids|
  {
    FirstBlock(tasks, kids, e);
    var head, tail := Block(tasks, kids[0], e), Blocks(tasks, kids[1..], e);
    if t in head {
      p := FindInBlock(tasks, kids[0], e, t, d);
      HoldsLeft(Blocks(tasks, kids, e), head, tail, Block(tasks, t, d), p);
      p := Place(p.before, p.rest + tail);
    } else {
      p := FindInBlocks(tasks, kids[1..], e, t, d);
      HoldsRight(Blocks(tasks, kids, e), head, tail, Block(tasks, t, d), p);
      p := Place(head + p.before, p.rest);
    }
  }

  lemma FindInOrdered(tasks: seq<Task>, t: Task, d: nat) returns (p: Place<Task>)
    requires UniqueIds(tasks) && t in tasks && At(tasks, t, d)
    ensures Holds(Ordered(tasks), Block(tasks, t, d), p)
  {
    FromRootsMembers(tasks, t);
    RootsAt(tasks);
    var missing := Missing(tasks, FromRoots(tasks));
    p := FindInBlocks(tasks, WithParent(tasks, None), 0, t, d);
    HoldsLeft(Ordered(tasks), FromRoots(tasks), missing, Block(tasks, t, d), p);
    p := Place(p.before, p.rest + missing);
  }

  /** Each task that a root leads to is followed at once by exactly the tasks below it. */
  lemma SubtreeFollows(tasks: seq<Task>, t: Task) returns (i: nat, end: nat)
    requires UniqueIds(tasks) && t in tasks && Rooted(tasks, t)
    ensures i < end <= |Ordered(tasks)| && Ordered(tasks)[i] == t
    ensures forall x :: x in Ordered(tasks)[i + 1..end] <==> x in tasks && Descends(tasks, x, t.id)
  {
    var d: nat :| At(tasks, t, d);
    var p := FindInOrdered(tasks, t, d);
    var kids, rest := BlockRest(tasks, t, d);
    i := |p.before|;
    end := i + 1 + |rest|;
    HeldTail(Ordered(tasks), t, rest, p);
  }

  lemma HeldTail<T>(outer: seq<T>, x: T, rest: seq<T>, p: Place<T>)
    requires Holds(outer, [x] + rest, p)
    ensures |p.before| + 1 + |rest| <= |outer|
    ensures outer[|p.before|] == x && outer[|p.before| + 1..|p.before| + 1 + |rest|] == rest
  {
  }
}
