/** Walks, cycles and topological orders of a finite directed graph given by its set of edges. */
module Digraph {
  import opened Sequences

  type Id = string

  type Edges = set<(Id, Id)>

  predicate IsWalk(edges: Edges, p: seq<Id>) {
    forall k :: 0 <= k < |p| - 1 ==> (p[k], p[k + 1]) in edges
  }

  predicate IsCycle(edges: Edges, p: seq<Id>) {
    |p| >= 2 && p[0] == p[|p| - 1] && IsWalk(edges, p)
  }

  ghost predicate Acyclic(edges: Edges) {
    forall p :: !IsCycle(edges, p)
  }

  lemma NoEdgesAcyclic(edges: Edges)
    requires edges == {}
    ensures Acyclic(edges)
  {
    forall p ensures !IsCycle(edges, p) {
      if |p| >= 2 {
        assert (p[0], p[1]) !in edges;
      }
    }
  }

  /** Each entry comes after everything it points to. */
  ghost predicate Topological(edges: Edges, order: seq<Id>) {
    NoRepeats(order) &&
    forall e, k :: e in edges && 0 <= k < |order| && order[k] == e.0 ==> e.1 in order[..k]
  }

  lemma {:induction false} WalkDescends(edges: Edges, order: seq<Id>, p: seq<Id>, k: nat) returns (m: nat)
    requires Topological(edges, order)
    requires |p| >= 2 && IsWalk(edges, p) && k < |order| && order[k] == p[0]
    ensures m < k && order[m] == p[|p| - 1]
    decreases |p|
  {
    assert (p[0], p[1]) in edges;
    m :| 0 <= m < k && order[m] == p[1];
    if |p| > 2 {
      m := WalkDescends(edges, order, p[1..], m);
    }
  }

  lemma OrderedIsAcyclic(edges: Edges, order: seq<Id>)
    requires Topological(edges, order) && forall e :: e in edges ==> e.0 in order
    ensures Acyclic(edges)
  {
    forall p ensures !IsCycle(edges, p) {
      if IsCycle(edges, p) {
        assert (p[0], p[1]) in edges;
        var k :| 0 <= k < |order| && order[k] == p[0];
        var m := WalkDescends(edges, order, p, k);
        assert false;
      }
    }
  }

  ghost predicate HasSuccessorIn(edges: Edges, stuck: set<Id>, u: Id) {
    exists v :: v in stuck && (u, v) in edges
  }

  ghost predicate AllHaveSuccessors(edges: Edges, stuck: set<Id>) {
    forall u {:trigger HasSuccessorIn(edges, stuck, u)} :: u in stuck ==> HasSuccessorIn(edges, stuck, u)
  }

  /** A set in which every node points to another member contains a cycle: keep walking. */
  lemma {:induction false} StuckHasCycle(edges: Edges, stuck: set<Id>, walk: seq<Id>) returns (p: seq<Id>)
    requires AllHaveSuccessors(edges, stuck)
    requires walk != [] && NoRepeats(walk) && IsWalk(edges, walk) && forall u :: u in walk ==> u in stuck
    ensures IsCycle(edges, p)
    decreases stuck - set u | u in walk
  {
    var last := walk[|walk| - 1];
    assert last in walk && HasSuccessorIn(edges, stuck, last);
    var v :| v in stuck && (last, v) in edges;
    if v in walk {
      var i :| 0 <= i < |walk| && walk[i] == v;
      p := walk[i..] + [v];
    } else {
      assert (set u | u in walk + [v]) == (set u | u in walk) + {v};
      p := StuckHasCycle(edges, stuck, walk + [v]);
    }
  }
}

/**
 The dependency check of a project's task list (devboule-mcp/src/project_file.rs): ids are distinct, every
 dependency is a known other task and listed once, and Kahn's algorithm accepts exactly the acyclic graphs.
 */
module TaskDag {
  import opened Results
  import opened Digraph
  import opened Sequences

  datatype Task = Task(id: Id, deps: seq<Id>)

  datatype DagError =
    | DuplicateTask(id: Id)
    | SelfReference(id: Id)
    | UnknownDependency(id: Id, dep: Id)
    | DuplicateDependency(id: Id, dep: Id)
    | Cycle

  // ----- what is being decided

  predicate DistinctIds(tasks: seq<Task>) {
    forall i, j :: 0 <= i < j < |tasks| ==> tasks[i].id != tasks[j].id
  }

  function Ids(tasks: seq<Task>): set<Id> {
    set t | t in tasks :: t.id
  }

  ghost predicate CleanDeps(ids: set<Id>, t: Task) {
    t.id !in t.deps && NoRepeats(t.deps) && forall d :: d in t.deps ==> d in ids
  }

  ghost predicate Clean(tasks: seq<Task>) {
    forall t :: t in tasks ==> CleanDeps(Ids(tasks), t)
  }

  function Depends(tasks: seq<Task>): Edges {
    set t, d | t in tasks && d in t.deps :: (t.id, d)
  }

  lemma DependsOfTask(tasks: seq<Task>, i: nat)
    requires DistinctIds(tasks) && i < |tasks|
    ensures forall d :: (tasks[i].id, d) in Depends(tasks) <==> d in tasks[i].deps
  {
    forall d ensures (tasks[i].id, d) in Depends(tasks) <==> d in tasks[i].deps {
      if (tasks[i].id, d) in Depends(tasks) {
        var t :| t in tasks && t.id == tasks[i].id && d in t.deps;
        var k :| 0 <= k < |tasks| && tasks[k] == t;
      }
      assert tasks[i] in tasks;
    }
  }

  // ----- counting unresolved dependencies

  function Unresolved(deps: seq<Id>, done: set<Id>): nat {
    if deps == [] then 0
    else (if deps[0] in done then 0 else 1) + Unresolved(deps[1..], done)
  }

  lemma {:induction false} ResolveOne(deps: seq<Id>, done: set<Id>, v: Id)
    requires NoRepeats(deps) && v !in done
    ensures Unresolved(deps, done) == Unresolved(deps, done + {v}) + (if v in deps then 1 else 0)
  {
    if deps != [] {
      ResolveOne(deps[1..], done, v);
      assert deps == [deps[0]] + deps[1..];
    }
  }

  lemma {:induction false} AllResolved(deps: seq<Id>, done: set<Id>)
    ensures Unresolved(deps, done) == 0 <==> forall d :: d in deps ==> d in done
  {
    if deps != [] {
      AllResolved(deps[1..], done);
      assert deps == [deps[0]] + deps[1..];
      assert deps[0] in deps;
    }
  }

  lemma {:induction false} NothingResolved(deps: seq<Id>)
    ensures Unresolved(deps, {}) == |deps|
  {
    if deps != [] {
      NothingResolved(deps[1..]);
    }
  }

  /** Where Kahn's loop stops: it has resolved every task exactly when there is no cycle. */
  lemma CountDecides(tasks: seq<Task>, order: seq<Id>, done: set<Id>)
    requires DistinctIds(tasks) && Clean(tasks) && Topological(Depends(tasks), order)
    requires done == (set x | x in order) && done <= Ids(tasks)
    requires forall i :: 0 <= i < |tasks| && Unresolved(tasks[i].deps, done) == 0 ==> tasks[i].id in done
    ensures |order| == |Ids(tasks)| <==> Acyclic(Depends(tasks))
  {
    var ids := Ids(tasks);
    NoRepeatsSize(order);
    assert ids == done + (ids - done);
    if ids - done == {} {
      EdgesStartAtTasks(tasks);
      OrderedIsAcyclic(Depends(tasks), order);
    } else {
      StuckIsCyclic(tasks, done);
    }
  }

  lemma EdgesStartAtTasks(tasks: seq<Task>)
    ensures forall e :: e in Depends(tasks) ==> e.0 in Ids(tasks)
  {
  }

  lemma StuckIsCyclic(tasks: seq<Task>, done: set<Id>)
    requires Clean(tasks) && Ids(tasks) - done != {}
    requires forall i :: 0 <= i < |tasks| && Unresolved(tasks[i].deps, done) == 0 ==> tasks[i].id in done
    ensures !Acyclic(Depends(tasks))
  {
    hide Clean, Unresolved, Depends, IsCycle;
    var stuck := Ids(tasks) - done;
    forall u | u in stuck ensures HasSuccessorIn(Depends(tasks), stuck, u) {
      StuckHasSuccessor(tasks, done, u);
    }
    var u :| u in stuck;
    var p := StuckHasCycle(Depends(tasks), stuck, [u]);
  }

  lemma StuckHasSuccessor(tasks: seq<Task>, done: set<Id>, u: Id)
    requires Clean(tasks) && u in Ids(tasks) - done
    requires forall i :: 0 <= i < |tasks| && Unresolved(tasks[i].deps, done) == 0 ==> tasks[i].id in done
    ensures HasSuccessorIn(Depends(tasks), Ids(tasks) - done, u)
  {
    var t :| t in tasks && t.id == u;
    var i :| 0 <= i < |tasks| && tasks[i] == t;
    AllResolved(t.deps, done);
    var v :| v in t.deps && v !in done;
    assert CleanDeps(Ids(tasks), t);
  }

  // ----- Kahn's algorithm

  /** The ids of the first `n` tasks that depend on `v`, in list order. */
  function DependentsUpTo(tasks: seq<Task>, n: nat, v: Id): seq<Id>
    requires n <= |tasks|
  {
    if n == 0 then []
    else DependentsUpTo(tasks, n - 1, v) + (if v in tasks[n - 1].deps then [tasks[n - 1].id] else [])
  }

  function Lookup(m: map<Id, seq<Id>>, v: Id): seq<Id> {
    if v in m then m[v] else []
  }

  lemma {:induction false} DependentsExact(tasks: seq<Task>, n: nat, v: Id)
    requires n <= |tasks| && DistinctIds(tasks)
    ensures NoRepeats(DependentsUpTo(tasks, n, v))
    ensures forall id :: id in DependentsUpTo(tasks, n, v) <==>
      exists i :: 0 <= i < n && tasks[i].id == id && v in tasks[i].deps
  {
    if n > 0 {
      DependentsExact(tasks, n - 1, v);
      var init, all := DependentsUpTo(tasks, n - 1, v), DependentsUpTo(tasks, n, v);
      assert forall i :: 0 <= i < |init| ==> init[i] in init;
    }
  }

  method AddDependents(dependents: map<Id, seq<Id>>, t: Task) returns (r: map<Id, seq<Id>>)
    requires NoRepeats(t.deps)
    ensures forall v :: Lookup(r, v) == Lookup(dependents, v) + (if v in t.deps then [t.id] else [])
  {
    r := dependents;
    for j := 0 to |t.deps|
      invariant forall v :: Lookup(r, v) == Lookup(dependents, v) + (if v in t.deps[..j] then [t.id] else [])
    {
      var dep := t.deps[j];
      assert t.deps[..j + 1] == t.deps[..j] + [dep];
      r := r[dep := Lookup(r, dep) + [t.id]];
    }
    assert t.deps[..|t.deps|] == t.deps;
  }

  method BuildDependents(tasks: seq<Task>) returns (dependents: map<Id, seq<Id>>)
    requires forall i :: 0 <= i < |tasks| ==> NoRepeats(tasks[i].deps)
    ensures forall v :: Lookup(dependents, v) == DependentsUpTo(tasks, |tasks|, v)
  {
    dependents := map[];
    for i := 0 to |tasks|
      invariant forall v :: Lookup(dependents, v) == DependentsUpTo(tasks, i, v)
    {
      dependents := AddDependents(dependents, tasks[i]);
    }
  }

  /** What the loop knows of the in-degrees: each counts the dependencies that are not resolved yet. */
  predicate Counts(tasks: seq<Task>, inDegree: map<Id, nat>, done: set<Id>) {
    inDegree.Keys == Ids(tasks) &&
    forall i :: 0 <= i < |tasks| ==> tasks[i].id in inDegree && inDegree[tasks[i].id] == Unresolved(tasks[i].deps, done)
  }

  method InitialDegrees(tasks: seq<Task>) returns (inDegree: map<Id, nat>)
    requires DistinctIds(tasks)
    ensures Counts(tasks, inDegree, {})
  {
    inDegree := map[];
    for i := 0 to |tasks|
      invariant inDegree.Keys == set k | 0 <= k < i :: tasks[k].id
      invariant forall k :: 0 <= k < i ==> tasks[k].id in inDegree && inDegree[tasks[k].id] == |tasks[k].deps|
    {
      inDegree := inDegree[tasks[i].id := |tasks[i].deps|];
    }
    forall i | 0 <= i < |tasks| ensures |tasks[i].deps| == Unresolved(tasks[i].deps, {}) {
      NothingResolved(tasks[i].deps);
    }
  }

  /** Collecting from a hash map: the ready tasks come in no particular order. */
  method CollectReady(inDegree: map<Id, nat>) returns (queue: seq<Id>)
    ensures NoRepeats(queue)
    ensures forall id :: id in queue <==> id in inDegree && inDegree[id] == 0
  {
    queue := [];
    var left := inDegree.Keys;
    while left != {}
      invariant left <= inDegree.Keys && NoRepeats(queue)
      invariant forall id :: id in queue <==> id in inDegree.Keys - left && inDegree[id] == 0
      decreases left
    {
      var id :| id in left;
      left := left - {id};
      if inDegree[id] == 0 {
        queue := queue + [id];
      }
    }
  }

  lemma IsChild(tasks: seq<Task>, node: Id, i: nat)
    requires DistinctIds(tasks) && i < |tasks|
    ensures tasks[i].id in DependentsUpTo(tasks, |tasks|, node) <==> node in tasks[i].deps
  {
    hide DependentsUpTo;
    DependentsExact(tasks, |tasks|, node);
    if tasks[i].id in DependentsUpTo(tasks, |tasks|, node) {
      var j :| 0 <= j < |tasks| && tasks[j].id == tasks[i].id && node in tasks[j].deps;
      assert j == i;
    }
  }

  /** Resolving `node` takes one off the count of a task exactly if it is a child. */
  lemma WaitingChild(tasks: seq<Task>, node: Id, inDegree: map<Id, nat>, done: set<Id>, i: nat)
    requires DistinctIds(tasks) && Clean(tasks) && Counts(tasks, inDegree, done) && node !in done && i < |tasks|
    ensures tasks[i].id in inDegree
    ensures inDegree[tasks[i].id] == Unresolved(tasks[i].deps, done + {node})
      + (if tasks[i].id in DependentsUpTo(tasks, |tasks|, node) then 1 else 0)
  {
    hide DependentsUpTo, Unresolved;
    assert CleanDeps(Ids(tasks), tasks[i]);
    IsChild(tasks, node, i);
    ResolveOne(tasks[i].deps, done, node);
  }

  /** The tasks that wait for `node` are its children, and each has an unresolved dependency. */
  lemma WaitingChildren(tasks: seq<Task>, node: Id, inDegree: map<Id, nat>, done: set<Id>)
    requires DistinctIds(tasks) && Clean(tasks) && Counts(tasks, inDegree, done) && node !in done
    ensures var children := DependentsUpTo(tasks, |tasks|, node);
      && NoRepeats(children)
      && (forall id :: id in children ==> id in inDegree && inDegree[id] > 0)
      && (forall i :: 0 <= i < |tasks| ==>
            tasks[i].id in inDegree
            && inDegree[tasks[i].id]
                 == Unresolved(tasks[i].deps, done + {node}) + (if tasks[i].id in children then 1 else 0))
  {
    var children := DependentsUpTo(tasks, |tasks|, node);
    hide *;
    DependentsExact(tasks, |tasks|, node);
    forall i | 0 <= i < |tasks|
      ensures tasks[i].id in inDegree
        && inDegree[tasks[i].id]
             == Unresolved(tasks[i].deps, done + {node}) + (if tasks[i].id in children then 1 else 0)
    {
      WaitingChild(tasks, node, inDegree, done, i);
    }
    forall id | id in children ensures id in inDegree && inDegree[id] > 0 {
      var i :| 0 <= i < |tasks| && tasks[i].id == id && node in tasks[i].deps;
      WaitingChild(tasks, node, inDegree, done, i);
    }
  }

  /** The inner loop: every child waits for one task less, and a child that waits for none is ready. */
  method Decrement(children: seq<Id>, inDegree: map<Id, nat>, queue: seq<Id>)
    returns (degrees: map<Id, nat>, ready: seq<Id>)
    requires NoRepeats(children) && NoRepeats(queue)
    requires forall id :: id in children ==> id in inDegree && inDegree[id] > 0 && id !in queue
    ensures degrees.Keys == inDegree.Keys && NoRepeats(ready)
    ensures forall id :: id in inDegree ==> degrees[id] == inDegree[id] - (if id in children then 1 else 0)
    ensures forall id :: id in ready <==> id in queue || (id in children && degrees[id] == 0)
  {
    degrees, ready := inDegree, queue;
    for j := 0 to |children|
      invariant degrees.Keys == inDegree.Keys && NoRepeats(ready)
      invariant forall id :: id in inDegree ==> degrees[id] == inDegree[id] - (if id in children[..j] then 1 else 0)
      invariant forall id :: id in ready <==> id in queue || (id in children[..j] && degrees[id] == 0)
    {
      var child := children[j];
      assert child in children && child !in children[..j];
      assert children[..j + 1] == children[..j] + [child];
      degrees := degrees[child := degrees[child] - 1];
      if degrees[child] == 0 {
        ready := ready + [child];
      }
    }
    assert children[..|children|] == children;
  }

  /** `order` lists the resolved tasks, and the queue holds exactly the others without an unresolved dependency. */
  ghost predicate QueueState(inDegree: map<Id, nat>, queue: seq<Id>, order: seq<Id>, done: set<Id>) {
    && done == (set x | x in order) && done <= inDegree.Keys
    && NoRepeats(queue)
    && (forall id :: id in queue ==> id in inDegree && id !in done)
    && (forall id :: id in inDegree ==> (inDegree[id] == 0 <==> id in queue || id in done))
  }

  /** What Kahn's loop keeps. */
  ghost predicate LoopState(tasks: seq<Task>, inDegree: map<Id, nat>, queue: seq<Id>, order: seq<Id>, done: set<Id>) {
    Counts(tasks, inDegree, done) && Topological(Depends(tasks), order) && QueueState(inDegree, queue, order, done)
  }

  lemma ReadyExtends(tasks: seq<Task>, inDegree: map<Id, nat>, queue: seq<Id>, order: seq<Id>, done: set<Id>, node: Id)
    requires DistinctIds(tasks) && LoopState(tasks, inDegree, queue, order, done) && node in queue
    ensures Topological(Depends(tasks), order + [node]) && node in Ids(tasks)
  {
    var longer, edges := order + [node], Depends(tasks);
    forall e, k | e in edges && 0 <= k < |longer| && longer[k] == e.0 ensures e.1 in longer[..k] {
      if k < |order| {
        assert longer[..k] == order[..k];
      } else {
        assert longer[..k] == order;
        var i :| 0 <= i < |tasks| && tasks[i].id == node;
        AllResolved(tasks[i].deps, done);
        DependsOfTask(tasks, i);
      }
    }
  }

  lemma QueueStep(inDegree: map<Id, nat>, queue: seq<Id>, order: seq<Id>, done: set<Id>, node: Id,
                  children: seq<Id>, degrees: map<Id, nat>, ready: seq<Id>)
    requires QueueState(inDegree, queue + [node], order, done)
    requires degrees.Keys == inDegree.Keys && NoRepeats(ready)
    requires forall id :: id in children ==> id in inDegree && inDegree[id] > 0
    requires forall id :: id in ready <==> id in queue || (id in children && degrees[id] == 0)
    requires forall id :: id in inDegree && id !in children ==> degrees[id] == inDegree[id]
    ensures QueueState(degrees, ready, order + [node], done + {node})
  {
    assert node in queue + [node] && forall id :: id in queue ==> id in queue + [node];
    forall i | 0 <= i < |queue| ensures queue[i] != node {
      assert (queue + [node])[i] != (queue + [node])[|queue|];
    }
  }

  /** One turn of the outer loop, with the last entry of the queue already popped. */
  method ResolveNode(tasks: seq<Task>, dependents: map<Id, seq<Id>>, inDegree: map<Id, nat>, queue: seq<Id>, node: Id,
                     ghost order: seq<Id>, ghost done: set<Id>)
    returns (degrees: map<Id, nat>, ready: seq<Id>)
    requires DistinctIds(tasks) && Clean(tasks)
    requires forall v :: Lookup(dependents, v) == DependentsUpTo(tasks, |tasks|, v)
    requires LoopState(tasks, inDegree, queue + [node], order, done)
    ensures node in Ids(tasks) && node !in done
    ensures LoopState(tasks, degrees, ready, order + [node], done + {node})
  {
    assert node in queue + [node] && forall id :: id in queue ==> id in queue + [node];
    forall i, j | 0 <= i < j < |queue| ensures queue[i] != queue[j] {
      assert (queue + [node])[i] != (queue + [node])[j];
    }
    ReadyExtends(tasks, inDegree, queue + [node], order, done, node);
    WaitingChildren(tasks, node, inDegree, done);
    hide Unresolved, DependentsUpTo, Clean, Topological, Depends;
    degrees, ready := Decrement(Lookup(dependents, node), inDegree, queue);
    QueueStep(inDegree, queue, order, done, node, Lookup(dependents, node), degrees, ready);
  }

  method DrainQueue(tasks: seq<Task>, dependents: map<Id, seq<Id>>, inDegree: map<Id, nat>, queue: seq<Id>)
    returns (resolved: nat)
    requires DistinctIds(tasks) && Clean(tasks)
    requires forall v :: Lookup(dependents, v) == DependentsUpTo(tasks, |tasks|, v)
    requires LoopState(tasks, inDegree, queue, [], {})
    ensures resolved == |Ids(tasks)| <==> Acyclic(Depends(tasks))
  {
    var degrees, ready := inDegree, queue;
    resolved := 0;
    ghost var order: seq<Id> := [];
    ghost var done: set<Id> := {};
    while ready != []
      invariant resolved == |order|
      invariant LoopState(tasks, degrees, ready, order, done)
      decreases Ids(tasks) - done
    {
      var last := |ready| - 1;
      var node := ready[last];
      assert ready == ready[..last] + [node];
      resolved := resolved + 1;
      degrees, ready := ResolveNode(tasks, dependents, degrees, ready[..last], node, order, done);
      order, done := order + [node], done + {node};
    }
    CountDecides(tasks, order, done);
  }

  method CountResolvable(tasks: seq<Task>) returns (resolved: nat)
    requires DistinctIds(tasks) && Clean(tasks)
    ensures resolved == |Ids(tasks)| <==> Acyclic(Depends(tasks))
  {
    assert forall i :: 0 <= i < |tasks| ==> tasks[i] in tasks && CleanDeps(Ids(tasks), tasks[i]);
    var inDegree := InitialDegrees(tasks);
    var dependents := BuildDependents(tasks);
    var queue := CollectReady(inDegree);
    resolved := DrainQueue(tasks, dependents, inDegree, queue);
  }

  // ----- the two entry points

  method CheckDeps(tasks: seq<Task>) returns (r: Option<DagError>)
    ensures r.None? <==> Clean(tasks)
    ensures r.Some? ==> exists t :: t in tasks && match r.value
      case SelfReference(id) => id == t.id && id in t.deps
      case UnknownDependency(id, dep) => id == t.id && dep in t.deps && dep !in Ids(tasks)
      case DuplicateDependency(id, dep) => id == t.id && dep in t.deps && !NoRepeats(t.deps)
      case _ => false
  {
    var known := Ids(tasks);
    for i := 0 to |tasks|
      invariant forall k :: 0 <= k < i ==> CleanDeps(known, tasks[k])
    {
      var t := tasks[i];
      var seen: set<Id> := {};
      for j := 0 to |t.deps|
        invariant NoRepeats(t.deps[..j]) && seen == (set d | d in t.deps[..j])
        invariant t.id !in t.deps[..j] && forall d :: d in t.deps[..j] ==> d in known
      {
        var dep := t.deps[j];
        assert dep in t.deps && t in tasks;
        if dep == t.id {
          return Some(SelfReference(t.id));
        }
        if dep !in known {
          return Some(UnknownDependency(t.id, dep));
        }
        if dep in seen {
          assert dep in t.deps[..j];
          return Some(DuplicateDependency(t.id, dep));
        }
        seen := seen + {dep};
        assert t.deps[..j + 1] == t.deps[..j] + [dep];
      }
      assert t.deps[..|t.deps|] == t.deps;
    }
    return None;
  }

  method ValidateTaskDependencyDag(tasks: seq<Task>) returns (r: Result<(), DagError>)
    requires DistinctIds(tasks)
    ensures r.Ok? <==> Clean(tasks) && Acyclic(Depends(tasks))
    ensures r == Err(Cycle) <==> Clean(tasks) && !Acyclic(Depends(tasks))
    ensures r.Err? ==> !r.error.DuplicateTask?
  {
    var defect := CheckDeps(tasks);
    if defect.Some? {
      return Err(defect.value);
    }
    var resolved := CountResolvable(tasks);
    if resolved != |Ids(tasks)| {
      return Err(Cycle);
    }
    return Ok(());
  }

  /** The part of `validate_project_state` that is about ids and dependencies; it runs the graph check only
      when some task has a dependency. */
  method ValidateProjectTasks(tasks: seq<Task>) returns (r: Result<(), DagError>)
    ensures r.Ok? <==> DistinctIds(tasks) && Clean(tasks) && Acyclic(Depends(tasks))
    ensures r.Err? && r.error.DuplicateTask? <==> !DistinctIds(tasks)
    ensures r == Err(Cycle) <==> DistinctIds(tasks) && Clean(tasks) && !Acyclic(Depends(tasks))
  {
    var taskIds: set<Id> := {};
    var anyDeps := false;
    for i := 0 to |tasks|
      invariant DistinctIds(tasks[..i]) && taskIds == (set k | 0 <= k < i :: tasks[k].id)
      invariant anyDeps <==> exists k :: 0 <= k < i && tasks[k].deps != []
    {
      if tasks[i].id in taskIds {
        return Err(DuplicateTask(tasks[i].id));
      }
      taskIds := taskIds + {tasks[i].id};
      anyDeps := anyDeps || tasks[i].deps != [];
    }
    assert tasks[..|tasks|] == tasks;
    if anyDeps {
      r := ValidateTaskDependencyDag(tasks);
    } else {
      assert Depends(tasks) == {};
      NoEdgesAcyclic(Depends(tasks));
      r := Ok(());
    }
  }
}
