/** Dependency edges and the checks on the graph they form (packages/domain/src/tasks.ts). */
module Dependencies {
  import opened Wrappers
  import opened Identity
  import opened Lists


  // ----- Single edges -----

  predicate ValidEdge(e: Edge) {
    && e.edgeId != EdgeNamed("")
    && e.sourceTaskId != Named("")
    && e.dependentTaskId != Named("")
    && e.sourceTaskId != e.dependentTaskId
    && (if e.edgeType.RequiresOutcome? then
          e.allowedOutcomes.Some? && e.allowedOutcomes.value != [] && Distinct(e.allowedOutcomes.value)
        else
          e.allowedOutcomes.None?)
  }

  /** Whether a resolution of the edge's source releases its dependent. */
  predicate DependencySatisfied(e: Edge, resolution: TerminalState) {
    match e.edgeType
    case RequiresSuccess => resolution == Succeeded
    case RequiresTerminal => true
    case RequiresOutcome => e.allowedOutcomes.Some? && resolution in e.allowedOutcomes.value
  }

  // ----- Paths, cycles and closures -----

  ghost predicate Link(edges: seq<Edge>, a: TaskId, b: TaskId) {
    exists e :: e in edges && e.sourceTaskId == a && e.dependentTaskId == b
  }

  ghost predicate IsPath(edges: seq<Edge>, p: seq<TaskId>) {
    p != [] && forall i :: 0 <= i < |p| - 1 ==> Link(edges, p[i], p[i + 1])
  }

  ghost predicate Connects(edges: seq<Edge>, p: seq<TaskId>, a: TaskId, b: TaskId) {
    IsPath(edges, p) && p[0] == a && p[|p| - 1] == b
  }

  /** `a` reaches `b` along zero or more edges. */
  ghost predicate Reaches(edges: seq<Edge>, a: TaskId, b: TaskId) {
    exists p :: Connects(edges, p, a, b)
  }

  ghost predicate IsCycle(edges: seq<Edge>, p: seq<TaskId>) {
    |p| >= 2 && IsPath(edges, p) && p[0] == p[|p| - 1]
  }

  ghost predicate Acyclic(edges: seq<Edge>) {
    !exists p :: IsCycle(edges, p)
  }

  /** Distinct tasks, valid edges with distinct ids, and both ends of every edge among the tasks. */
  ghost predicate WellFormedGraph(tasks: set<TaskId>, edges: seq<Edge>) {
    && (forall e :: e in edges ==> ValidEdge(e) && e.sourceTaskId in tasks && e.dependentTaskId in tasks)
    && (forall i, j :: 0 <= i < j < |edges| ==> edges[i].edgeId != edges[j].edgeId)
  }

  /** What `assertAcyclic` reports for a set of tasks. */
  ghost function DependencyCheck(tasks: set<TaskId>, edges: seq<Edge>): Check {
    if !WellFormedGraph(tasks, edges) then Fail(INVALID_DEPENDENCY)
    else if !Acyclic(edges) then Fail(DEPENDENCY_CYCLE)
    else Pass
  }

  /** The tasks from which `target` can be reached: the target and everything it transitively depends on. */
  ghost function Closure(edges: seq<Edge>, target: TaskId): set<TaskId> {
    set x | x in {target} + (set e | e in edges :: e.sourceTaskId) && Reaches(edges, x, target)
  }

  ghost predicate ClosedUnderSources(edges: seq<Edge>, s: set<TaskId>) {
    forall e :: e in edges && e.dependentTaskId in s ==> e.sourceTaskId in s
  }

  lemma PathExtends(edges: seq<Edge>, a: TaskId, p: seq<TaskId>)
    requires IsPath(edges, p) && Link(edges, a, p[0])
    ensures IsPath(edges, [a] + p)
  {
    var q := [a] + p;
    forall i | 0 <= i < |q| - 1 ensures Link(edges, q[i], q[i + 1]) {
      if i > 0 { assert q[i] == p[i - 1] && q[i + 1] == p[i]; }
    }
  }

  lemma PathAppends(edges: seq<Edge>, p: seq<TaskId>, b: TaskId)
    requires IsPath(edges, p) && Link(edges, p[|p| - 1], b)
    ensures IsPath(edges, p + [b])
  {
    var q := p + [b];
    forall i | 0 <= i < |q| - 1 ensures Link(edges, q[i], q[i + 1]) {
      assert q[i] == p[i];
      if i < |p| - 1 { assert q[i + 1] == p[i + 1]; }
    }
  }

  /** The closure contains its target and, with a task, every task it depends on. */
  lemma ClosureIsClosed(edges: seq<Edge>, target: TaskId)
    ensures target in Closure(edges, target)
    ensures ClosedUnderSources(edges, Closure(edges, target))
  {
    assert Connects(edges, [target], target, target);
    forall e | e in edges && e.dependentTaskId in Closure(edges, target)
      ensures e.sourceTaskId in Closure(edges, target)
    {
      var p :| Connects(edges, p, e.dependentTaskId, target);
      assert Link(edges, e.sourceTaskId, p[0]);
      PathExtends(edges, e.sourceTaskId, p);
      assert Connects(edges, [e.sourceTaskId] + p, e.sourceTaskId, target);
    }
  }

  /** ... and it is the least such set. */
  lemma ClosureIsLeast(edges: seq<Edge>, target: TaskId, s: set<TaskId>)
    requires target in s && ClosedUnderSources(edges, s)
    ensures Closure(edges, target) <= s
  {
    forall x | x in Closure(edges, target) ensures x in s {
      var p :| Connects(edges, p, x, target);
      PathStaysInside(edges, p, s);
    }
  }

  lemma {:induction false} PathStaysInside(edges: seq<Edge>, p: seq<TaskId>, s: set<TaskId>)
    requires IsPath(edges, p) && p[|p| - 1] in s && ClosedUnderSources(edges, s)
    ensures p[0] in s
  {
    if |p| > 1 {
      assert IsPath(edges, p[1..]) by {
        forall i | 0 <= i < |p[1..]| - 1 ensures Link(edges, p[1..][i], p[1..][i + 1]) {
          assert Link(edges, p[i + 1], p[i + 2]);
        }
      }
      PathStaysInside(edges, p[1..], s);
      assert Link(edges, p[0], p[1]);
    }
  }

  /** Edges whose dependents lie outside a closure leave that closure as it was. */
  lemma ClosureUnaffected(edges: seq<Edge>, more: seq<Edge>, target: TaskId)
    requires forall e :: e in more ==> e.dependentTaskId !in Closure(edges, target)
    ensures Closure(edges + more, target) == Closure(edges, target)
  {
    ClosureIsClosed(edges, target);
    ClosureIsLeast(edges + more, target, Closure(edges, target));
    ClosureIsClosed(edges + more, target);
    ClosureIsLeast(edges, target, Closure(edges + more, target));
  }

  // ----- The depth-first search of `assertAcyclic` -----

  /** Every task in `order` has all the tasks that depend on it earlier in `order`. */
  ghost predicate FinishOrder(edges: seq<Edge>, order: seq<TaskId>) {
    && Distinct(order)
    && forall i, b :: 0 <= i < |order| && Link(edges, order[i], b) ==> b in order[..i]
  }

  lemma FinishOrderExcludesCycles(edges: seq<Edge>, order: seq<TaskId>)
    requires FinishOrder(edges, order)
    requires forall e :: e in edges ==> e.sourceTaskId in order
    ensures Acyclic(edges)
  {
    forall p | IsCycle(edges, p) ensures false {
      assert Link(edges, p[0], p[1]);
      var n := IndexFalls(edges, order, p);
    }
  }

  lemma {:induction false} IndexFalls(edges: seq<Edge>, order: seq<TaskId>, p: seq<TaskId>) returns (n: nat)
    requires FinishOrder(edges, order) && IsPath(edges, p) && p[0] in order
    ensures n < |order| && order[n] == p[|p| - 1]
    ensures |p| > 1 ==> p[|p| - 1] != p[0]
    ensures forall m :: 0 <= m < |order| && order[m] == p[0] ==> (if |p| > 1 then n < m else n == m)
  {
    var m :| 0 <= m < |order| && order[m] == p[0];
    n := m;
    var i := 0;
    while i < |p| - 1
      invariant 0 <= i < |p|
      invariant 0 <= n < |order| && order[n] == p[i]
      invariant if i > 0 then n < m else n == m
    {
      assert Link(edges, p[i], p[i + 1]);
      var k :| 0 <= k < n && order[..n][k] == p[i + 1];
      n, i := k, i + 1;
    }
  }

  class CycleSearch {
    const outgoing: map<TaskId, seq<TaskId>>
    var visiting: set<TaskId>
    var visited: set<TaskId>
    ghost const edges: seq<Edge>
    ghost var order: seq<TaskId>

    constructor (outgoing: map<TaskId, seq<TaskId>>, ghost edges: seq<Edge>)
      ensures this.outgoing == outgoing && this.edges == edges
      ensures visiting == {} && visited == {} && order == []
    {
      this.outgoing := outgoing;
      this.edges := edges;
      visiting, visited, order := {}, {}, [];
    }

    /** The adjacency lists are those of the edges, and both ends of every edge have one. */
    ghost predicate Faithful() {
      forall a :: a in outgoing ==>
        forall b :: b in outgoing[a] <==> Link(edges, a, b)
    }

    ghost predicate Endpoints() {
      forall e :: e in edges ==> e.sourceTaskId in outgoing && e.dependentTaskId in outgoing
    }

    ghost predicate Valid(stack: seq<TaskId>)
      reads this
    {
      && Faithful() && Endpoints()
      && visiting <= outgoing.Keys
      && visiting == Elements(stack)
      && (stack == [] || IsPath(edges, stack))
      && visited == Elements(order)
      && visiting !! visited
      && FinishOrder(edges, order)
    }

    method Visit(task: TaskId, ghost stack: seq<TaskId>) returns (ok: bool)
      requires Valid(stack) && task in outgoing
      requires stack == [] || Link(edges, stack[|stack| - 1], task)
      modifies this
      decreases outgoing.Keys - visiting
      ensures ok ==> Valid(stack) && visiting == old(visiting)
      ensures ok ==> old(visited) <= visited && task in visited
      ensures !ok ==> !Acyclic(edges)
    {
      if task in visiting {
        ghost var i :| 0 <= i < |stack| && stack[i] == task;
        CycleFound(edges, stack, i, task);
        return false;
      }
      if task in visited {
        return true;
      }
      visiting := visiting + {task};
      ghost var deeper := stack + [task];
      if stack != [] { PathAppends(edges, stack, task); }
      var j := 0;
      while j < |outgoing[task]|
        invariant 0 <= j <= |outgoing[task]|
        invariant Valid(deeper) && visiting == old(visiting) + {task}
        invariant old(visited) <= visited
        invariant forall k :: 0 <= k < j ==> outgoing[task][k] in visited
      {
        var next := outgoing[task][j];
        assert Link(edges, task, next);
        var fine := Visit(next, deeper);
        if !fine {
          return false;
        }
        j := j + 1;
      }
      ghost var before := order;
      visiting := visiting - {task};
      visited := visited + {task};
      order := order + [task];
      FinishOrderGrows(edges, before, task);
      ok := true;
    }
  }

  lemma CycleFound(edges: seq<Edge>, stack: seq<TaskId>, i: int, task: TaskId)
    requires IsPath(edges, stack) && 0 <= i < |stack| && stack[i] == task
    requires Link(edges, stack[|stack| - 1], task)
    ensures !Acyclic(edges)
  {
    var q := stack[i..];
    forall k | 0 <= k < |q| - 1 ensures Link(edges, q[k], q[k + 1]) {
      assert Link(edges, stack[i + k], stack[i + k + 1]);
    }
    PathAppends(edges, q, task);
    assert IsCycle(edges, q + [task]);
  }

  lemma FinishOrderGrows(edges: seq<Edge>, order: seq<TaskId>, task: TaskId)
    requires FinishOrder(edges, order) && task !in order
    requires forall b :: Link(edges, task, b) ==> b in order
    ensures FinishOrder(edges, order + [task])
  {
    var o := order + [task];
    forall i, b | 0 <= i < |o| && Link(edges, o[i], b) ensures b in o[..i] {
      assert o[..i] == order[..i];
      if i == |order| { assert order[..i] == order; }
    }
  }

  /** The first loop of `assertAcyclic`: checks each edge and collects the adjacency lists. */
  method CollectEdges(tasks: seq<TaskId>, edges: seq<Edge>) returns (ok: bool, outgoing: map<TaskId, seq<TaskId>>)
    ensures ok <==> WellFormedGraph(Elements(tasks), edges)
    ensures ok ==> outgoing.Keys == Elements(tasks)
    ensures ok ==> forall a :: a in outgoing ==> forall b :: b in outgoing[a] <==> Link(edges, a, b)
  {
    hide ValidEdge;
    outgoing := map t | t in tasks :: [];
    var edgeIds: set<EdgeId> := {};
    var i := 0;
    while i < |edges|
      invariant 0 <= i <= |edges|
      invariant outgoing.Keys == Elements(tasks)
      invariant edgeIds == set k | 0 <= k < i :: edges[k].edgeId
      invariant WellFormedGraph(Elements(tasks), edges[..i])
      invariant forall a :: a in outgoing ==> forall b :: b in outgoing[a] <==> Link(edges[..i], a, b)
    {
      var e := edges[i];
      assert edges[..i + 1] == edges[..i] + [e];
      if !ValidEdge(e) || e.edgeId in edgeIds || e.sourceTaskId !in outgoing || e.dependentTaskId !in outgoing {
        assert e in edges;
        return false, outgoing;
      }
      LinksGrow(edges[..i], e);
      edgeIds := edgeIds + {e.edgeId};
      outgoing := outgoing[e.sourceTaskId := outgoing[e.sourceTaskId] + [e.dependentTaskId]];
      i := i + 1;
    }
    assert edges[..i] == edges;
    ok := true;
  }

  /**
   * `assertAcyclic`: terminates on every input, accepts exactly the well-formed acyclic graphs on
   * distinct tasks, and reports DEPENDENCY_CYCLE exactly when a well-formed graph has a cycle.
   */
  method AssertAcyclic(tasks: seq<TaskId>, edges: seq<Edge>) returns (r: Check)
    ensures Distinct(tasks) ==> r == DependencyCheck(Elements(tasks), edges)
    ensures !Distinct(tasks) ==> r == Fail(INVALID_DEPENDENCY)
  {
    CountDistinct(tasks);
    if |Elements(tasks)| != |tasks| {
      if Distinct(tasks) { DistinctCount(tasks); }
      return Fail(INVALID_DEPENDENCY);
    }
    hide Distinct, WellFormedGraph;
    var ok, outgoing := CollectEdges(tasks, edges);
    if !ok {
      return Fail(INVALID_DEPENDENCY);
    }
    var search := new CycleSearch(outgoing, edges);
    var j := 0;
    while j < |tasks|
      invariant 0 <= j <= |tasks|
      invariant search.Valid([])
      invariant forall k :: 0 <= k < j ==> tasks[k] in search.visited
      invariant fresh(search)
    {
      var fine := search.Visit(tasks[j], []);
      if !fine {
        return Fail(DEPENDENCY_CYCLE);
      }
      j := j + 1;
    }
    FinishOrderExcludesCycles(edges, search.order);
    return Pass;
  }

  lemma LinksGrow(edges: seq<Edge>, e: Edge)
    ensures forall a, b :: Link(edges + [e], a, b) <==>
              Link(edges, a, b) || (a == e.sourceTaskId && b == e.dependentTaskId)
  {
    forall a, b | Link(edges, a, b) || (a == e.sourceTaskId && b == e.dependentTaskId)
      ensures Link(edges + [e], a, b)
    {
      if Link(edges, a, b) {
        var f :| f in edges && f.sourceTaskId == a && f.dependentTaskId == b;
        assert f in edges + [e];
      } else {
        assert e in edges + [e];
      }
    }
  }

  // ----- The search of `taskDependencyClosureV1` (packages/domain/src/execution.ts) -----

  class ClosureSearch {
    const known: set<TaskId>
    const edges: seq<Edge>
    var seen: set<TaskId>

    constructor (known: set<TaskId>, edges: seq<Edge>)
      ensures this.known == known && this.edges == edges && seen == {}
    {
      this.known, this.edges := known, edges;
      seen := {};
    }

    /** All sources of the tasks first seen since `before` have been seen. */
    ghost predicate Explored(before: set<TaskId>)
      reads this
    {
      forall e :: e in edges && e.dependentTaskId in seen - before ==> e.sourceTaskId in seen
    }

    method Visit(id: TaskId, ghost target: TaskId) returns (ok: bool)
      requires id in Closure(edges, target)
      requires seen <= known && seen <= Closure(edges, target)
      modifies this
      decreases known - seen
      ensures ok ==> old(seen) + {id} <= seen <= known && seen <= Closure(edges, target)
      ensures ok ==> Explored(old(seen))
      ensures !ok ==> !(Closure(edges, target) <= known)
    {
      if id in seen {
        return true;
      }
      if id !in known {
        return false;
      }
      ghost var before := seen;
      seen := seen + {id};
      ClosureIsClosed(edges, target);
      var i := 0;
      while i < |edges|
        invariant 0 <= i <= |edges|
        invariant before + {id} <= seen <= known && seen <= Closure(edges, target)
        invariant Explored(before + {id})
        invariant forall k :: 0 <= k < i && edges[k].dependentTaskId == id ==> edges[k].sourceTaskId in seen
      {
        if edges[i].dependentTaskId == id {
          var fine := Visit(edges[i].sourceTaskId, target);
          if !fine {
            return false;
          }
        }
        i := i + 1;
      }
      ok := true;
    }
  }

  /** The tasks of the dependency closure, or TASK_NOT_FOUND when one of them has no contract. */
  method DependencyClosure(known: set<TaskId>, edges: seq<Edge>, target: TaskId) returns (r: Result<set<TaskId>>)
    ensures r == if Closure(edges, target) <= known then Ok(Closure(edges, target)) else Err(TASK_NOT_FOUND)
  {
    var search := new ClosureSearch(known, edges);
    ClosureIsClosed(edges, target);
    var fine := search.Visit(target, target);
    if !fine {
      return Err(TASK_NOT_FOUND);
    }
    assert ClosedUnderSources(edges, search.seen) by {
      assert search.seen - {} == search.seen;
    }
    ClosureIsLeast(edges, target, search.seen);
    assert search.seen == Closure(edges, target);
    return Ok(search.seen);
  }
}
