/** `reduceTaskExecutionV1` with the loops and searches of the source (packages/domain/src/execution.ts). */
module ExecutionReducer {
  import opened Wrappers
  import opened Identity
  import opened Dependencies
  import opened Lists
  import opened Attempts
  import opened Plans
  import opened Execution
  import opened ExecutionSafety

  /** The shape every projection built by the reducer has: a well-formed graph, and workflows on known tasks. */
  ghost predicate Consistent(s: State) {
    GraphInv(s.contracts, s.lifecycles, s.edges) && WorkflowInv(s.contracts, s.workflows)
  }

  /** The members of a set as a list, like `Object.keys`. */
  method ListOf<T(==)>(s: set<T>) returns (r: seq<T>)
    ensures Distinct(r) && Elements(r) == s
  {
    r := [];
    var rest := s;
    while rest != {}
      invariant Distinct(r) && Elements(r) == s - rest && rest <= s
      decreases rest
    {
      var x :| x in rest;
      assert Elements(r + [x]) == Elements(r) + {x};
      r := r + [x];
      rest := rest - {x};
    }
  }

  lemma TargetsKnown(s: State, target: TaskId)
    requires Consistent(s) && target in s.contracts
    ensures Closure(s.edges, target) <= s.contracts.Keys
  {
    ClosureWithinKnown(s.contracts.Keys, s.edges, target);
  }

  lemma WorkflowTargetKnown(s: State, w: string)
    requires Consistent(s) && w in s.workflows
    ensures s.workflows[w].authorization.targetTaskId in s.contracts
  {
    assert WorkflowFits(s.contracts, w, s.workflows[w].authorization);
  }

  /** `taskDependencyClosureV1`: in a consistent state it finds a contract for every task of the closure. */
  method ClosureOf(s: State, target: TaskId) returns (r: Result<set<TaskId>>)
    requires Consistent(s)
    ensures r == if target in s.contracts then Ok(TaskClosure(s, target)) else Err(TASK_NOT_FOUND)
  {
    if target in s.contracts {
      TargetsKnown(s, target);
    } else {
      ClosureIsClosed(s.edges, target);
    }
    hide Consistent;
    r := DependencyClosure(s.contracts.Keys, s.edges, target);
  }

  /** The scan of the running workflows in `mutable` and in `assertTaskPlanRevisionV1`. */
  method HeldBy(s: State, id: TaskId, allowAutoPlan: bool) returns (held: bool)
    requires Consistent(s)
    ensures held == HeldByWorkflow(s, id, allowAutoPlan)
  {
    hide Consistent;
    var rest := s.workflows.Keys;
    while rest != {}
      invariant rest <= s.workflows.Keys
      invariant forall w :: w in s.workflows && w !in rest ==> !Holds(s, s.workflows[w], id, allowAutoPlan)
      decreases rest
    {
      var w :| w in rest;
      var workflow := s.workflows[w];
      WorkflowTargetKnown(s, w);
      if workflow.state.Running? && (workflow.authorization.graphDigest.Some? || !allowAutoPlan) {
        var closure := ClosureOf(s, workflow.authorization.targetTaskId);
        if id in closure.value {
          return true;
        }
      }
      rest := rest - {w};
    }
    return false;
  }

  method ClosureOfWorkflow(s: State, workflowId: string) returns (r: set<TaskId>)
    requires Consistent(s)
    ensures r == WorkflowClosure(s, workflowId)
  {
    hide Consistent;
    if workflowId !in s.workflows {
      return {};
    }
    WorkflowTargetKnown(s, workflowId);
    var closure := ClosureOf(s, s.workflows[workflowId].authorization.targetTaskId);
    return closure.value;
  }

  method CheckGraph(contracts: map<TaskId, Contract>, edges: seq<Edge>) returns (r: Check)
    ensures r == DependencyCheck(contracts.Keys, edges)
  {
    var tasks := ListOf(contracts.Keys);
    r := AssertAcyclic(tasks, edges);
  }

  method ParseEvent(e: Event) returns (r: Check)
    ensures r == ParseCheck(e)
  {
    hide ParsedPlan;
    var planParses := true;
    if CarriesPlan(e.body) {
      var derived := DerivePlanAdoption(e.body.plan);
      planParses := derived.Ok?;
    }
    return ParseBody(e, planParses);
  }

  method ReduceDependencyAdded(s: State, edge: Edge) returns (r: Result<State>)
    requires Consistent(s)
    ensures r == AddDependency(s, edge, HeldByWorkflow(s, edge.dependentTaskId, false),
                               DependencyCheck(s.contracts.Keys, s.edges + [edge]))
  {
    hide Consistent, HeldByWorkflow, DependencyCheck;
    var held := HeldBy(s, edge.dependentTaskId, false);
    var acyclic := CheckGraph(s.contracts, s.edges + [edge]);
    return AddDependency(s, edge, held, acyclic);
  }

  method ReducePrepared(s: State, p: Prepared) returns (r: Result<State>)
    requires Consistent(s)
    ensures r == Prepare(s, p, if p.workflowId.Some? then WorkflowClosure(s, p.workflowId.value) else {})
  {
    hide Consistent, Prepare;
    var closure := {};
    if p.workflowId.Some? {
      closure := ClosureOfWorkflow(s, p.workflowId.value);
    }
    return Prepare(s, p, closure);
  }

  /** Resolving looks at the attempts of the task in whatever order the record lists them. */
  method ReduceResolved(s: State, res: TaskResolution) returns (r: Result<State>)
    ensures r == RecordResolution(s, res, TaskAttempts(s, res.taskId))
  {
    hide ResolveTask, ChangeLifecycle;
    var keys := ListOf(AttemptKeysOf(s, res.taskId));
    assert forall k :: k in keys ==> k in Elements(keys);
    var attempts := AttemptsAt(s, keys);
    ghost var others := Enumerate(AttemptKeysOf(s, res.taskId));
    SameListing(s, keys, others);
    ResolveIgnoresOrder(ResolutionRequest(res), attempts, TaskAttempts(s, res.taskId));
    return RecordResolution(s, res, attempts);
  }

  lemma SameListing(s: State, keys: seq<AttemptKey>, others: seq<AttemptKey>)
    requires Distinct(keys) && Distinct(others) && Elements(keys) == Elements(others)
    requires forall k :: k in Elements(keys) ==> k in s.attempts
    ensures (forall k :: k in keys ==> k in s.attempts) && (forall k :: k in others ==> k in s.attempts)
    ensures |AttemptsAt(s, keys)| == |AttemptsAt(s, others)|
    ensures forall a :: a in AttemptsAt(s, keys) <==> a in AttemptsAt(s, others)
  {
    DistinctCount(keys);
    DistinctCount(others);
    assert forall k :: k in keys ==> k in Elements(keys);
    assert forall k :: k in others ==> k in Elements(others);
    ListedIn(s, keys, others);
    ListedIn(s, others, keys);
  }

  lemma ListedIn(s: State, keys: seq<AttemptKey>, others: seq<AttemptKey>)
    requires forall k :: k in keys ==> k in others && k in s.attempts
    requires forall k :: k in others ==> k in s.attempts
    ensures forall a :: a in AttemptsAt(s, keys) ==> a in AttemptsAt(s, others)
  {
    forall a | a in AttemptsAt(s, keys) ensures a in AttemptsAt(s, others) {
      var i :| 0 <= i < |keys| && AttemptsAt(s, keys)[i] == a;
      assert keys[i] in others;
      var j :| 0 <= j < |others| && others[j] == keys[i];
      assert AttemptsAt(s, others)[j] == a;
    }
  }

  method ReduceRevised(s: State, base: Digest, p: Plan) returns (r: Result<State>)
    requires Consistent(s)
    ensures r == RevisePlan(s, base, p, HeldByWorkflow(s, p.sourceTaskId, false))
  {
    hide Consistent, HeldByWorkflow, RevisePlan;
    var held := HeldBy(s, p.sourceTaskId, false);
    return RevisePlan(s, base, p, held);
  }

  lemma DuplicateId(cs: seq<Contract>, i: nat)
    requires i < |cs| && cs[i].taskId in Ids(cs[..i])
    ensures |Ids(cs)| != |cs|
  {
    var ids := IdList(cs);
    assert Elements(ids) == Ids(cs) by {
      forall id | id in Ids(cs) ensures id in ids {
        var c :| c in cs && c.taskId == id;
        var k :| 0 <= k < |cs| && cs[k] == c;
        assert ids[k] == id;
      }
    }
    CountDistinct(ids);
    var c :| c in cs[..i] && c.taskId == cs[i].taskId;
    var k :| 0 <= k < i && cs[k] == c;
    assert ids[k] == ids[i];
  }

  lemma OneMoreContract(contracts: map<TaskId, Contract>, lifecycles: map<TaskId, Lifecycle>, cs: seq<Contract>, i: nat)
    requires i < |cs|
    ensures cs[..i + 1] == cs[..i] + [cs[i]]
    ensures Ids(cs[..i + 1]) == Ids(cs[..i]) + {cs[i].taskId}
    ensures AddContracts(contracts, cs[..i + 1]) == AddContracts(contracts, cs[..i])[cs[i].taskId := cs[i]]
    ensures AddDrafts(lifecycles, cs[..i + 1]) == AddDrafts(lifecycles, cs[..i])[cs[i].taskId := Draft]
  {
    assert cs[..i + 1][..i] == cs[..i];
  }

  lemma {:induction false} AddedKeys(contracts: map<TaskId, Contract>, cs: seq<Contract>, id: TaskId)
    ensures id in AddContracts(contracts, cs) <==> id in contracts || id in Ids(cs)
  {
    if cs != [] {
      var n := |cs| - 1;
      AddedKeys(contracts, cs[..n], id);
      assert cs == cs[..n] + [cs[n]];
    }
  }

  lemma NothingYet(contracts: map<TaskId, Contract>, lifecycles: map<TaskId, Lifecycle>, cs: seq<Contract>)
    ensures FreshContracts(contracts, cs[..0]) && Ids(cs[..0]) == {}
    ensures AddContracts(contracts, cs[..0]) == contracts && AddDrafts(lifecycles, cs[..0]) == lifecycles
  {
    assert cs[..0] == [];
  }

  lemma FreshOneMore(contracts: map<TaskId, Contract>, cs: seq<Contract>, i: nat)
    requires i < |cs| && FreshContracts(contracts, cs[..i])
    ensures cs[i].taskId !in contracts && cs[i].taskId !in Ids(cs[..i]) ==> FreshContracts(contracts, cs[..i + 1])
    ensures cs[i].taskId in contracts || cs[i].taskId in Ids(cs[..i]) ==> !FreshContracts(contracts, cs)
  {
    assert cs[..i + 1] == cs[..i] + [cs[i]] && cs[i] in cs;
    assert Ids(cs[..i + 1]) == Ids(cs[..i]) + {cs[i].taskId};
    if cs[i].taskId in Ids(cs[..i]) {
      DuplicateId(cs, i);
    }
    hide Ids;
  }

  /** The loop of `TaskPlanAdoptedV1` that records the derived contracts as new drafts. */
  method RecordContracts(contracts: map<TaskId, Contract>, lifecycles: map<TaskId, Lifecycle>, cs: seq<Contract>)
      returns (ok: bool, newContracts: map<TaskId, Contract>, newLifecycles: map<TaskId, Lifecycle>)
    ensures ok == FreshContracts(contracts, cs)
    ensures ok ==> newContracts == AddContracts(contracts, cs) && newLifecycles == AddDrafts(lifecycles, cs)
  {
    hide FreshContracts, AddContracts, AddDrafts, Ids;
    NothingYet(contracts, lifecycles, cs);
    newContracts, newLifecycles := contracts, lifecycles;
    var i := 0;
    while i < |cs|
      invariant 0 <= i <= |cs|
      invariant newContracts == AddContracts(contracts, cs[..i]) && newLifecycles == AddDrafts(lifecycles, cs[..i])
      invariant FreshContracts(contracts, cs[..i])
    {
      var c := cs[i];
      OneMoreContract(contracts, lifecycles, cs, i);
      FreshOneMore(contracts, cs, i);
      AddedKeys(contracts, cs[..i], c.taskId);
      if c.taskId in newContracts {
        return false, newContracts, newLifecycles;
      }
      newContracts := newContracts[c.taskId := c];
      newLifecycles := newLifecycles[c.taskId := Draft];
      i := i + 1;
    }
    assert cs[..i] == cs;
    return true, newContracts, newLifecycles;
  }

  method ReduceAdopted(s: State, taskId: TaskId, planDigest: Digest) returns (r: Result<State>)
    requires Consistent(s)
    ensures r == AdoptPlan(s, taskId, planDigest)
  {
    hide Consistent, HeldByWorkflow, DependencyCheck, ParsedPlan, Adopted, FreshContracts;
    var held := HeldBy(s, taskId, true);
    var targets := AdoptionTargets(s, taskId, planDigest, held);
    if targets.Fail? {
      return Err(targets.code);
    }
    hide MutableCheck, AlreadyAdopted;
    var p := s.plans[planDigest];
    if p.planDigest in s.adopted {
      return Ok(s);
    }
    r := ReduceAdoption(s, p);
  }

  /** The part of `TaskPlanAdoptedV1` after its guards. */
  method ReduceAdoption(s: State, p: Plan) returns (r: Result<State>)
    ensures r == if !ParsedPlan(p) then Err(PLAN_INVALID)
                 else if !FreshContracts(s.contracts, Adopted(p).contracts) then Err(EXECUTION_INVALID)
                 else
                   var next := WithAdoption(s, p.planDigest, Adopted(p));
                   var check := DependencyCheck(next.contracts.Keys, next.edges);
                   if check.Fail? then Err(check.code) else Ok(next)
  {
    hide DependencyCheck, ParsedPlan, Adopted, FreshContracts, AddContracts, AddDrafts, IdList;
    var derived := DerivePlanAdoption(p);
    if derived.Err? {
      return Err(derived.code);
    }
    var a := derived.value;
    var ok, contracts, lifecycles := RecordContracts(s.contracts, s.lifecycles, a.contracts);
    if !ok {
      return Err(EXECUTION_INVALID);
    }
    var next := s.(contracts := contracts, lifecycles := lifecycles, edges := s.edges + a.edges,
                   adopted := s.adopted[p.planDigest := IdList(a.contracts)]);
    var acyclic := CheckGraph(next.contracts, next.edges);
    if acyclic.Fail? {
      return Err(acyclic.code);
    }
    return Ok(next);
  }

  method ReduceStarted(s: State, a: Authorization) returns (r: Result<State>)
    requires Consistent(s)
    ensures r == StartWorkflow(s, a, TaskClosure(s, a.targetTaskId))
  {
    hide Consistent, PlanningSourceFits, ParentAdmits, AlreadyRunning;
    var closure := ClosureOf(s, a.targetTaskId);
    return StartWorkflow(s, a, if closure.Ok? then closure.value else {});
  }

  method ReduceBound(s: State, workflowId: string, planDigest: Digest, graphDigest: Digest) returns (r: Result<State>)
    requires Consistent(s)
    ensures r == BindPlan(s, workflowId, planDigest, graphDigest, WorkflowClosure(s, workflowId))
  {
    hide Consistent, BindPlan;
    var closure := ClosureOfWorkflow(s, workflowId);
    return BindPlan(s, workflowId, planDigest, graphDigest, closure);
  }

  /**
   * `reduceTaskExecutionV1`.  A thrown error leaves the given state as it was; otherwise the result is
   * the state of the specification, whose reachability and acyclicity the searches have computed.
   */
  method Reduce(s: State, event: Event, sequence: int) returns (r: Result<State>)
    requires Consistent(s)
    ensures r == Step(s, event, sequence)
  {
    hide Consistent, ParseCheck, HeldByWorkflow, WorkflowClosure, TaskClosure, DependencyCheck, TaskAttempts;
    hide CreateTask, ChangeLifecycle, AddDependency, Prepare, TransitionAttempt, RecordReceipt, AbortAttempt, RecordResolution;
    hide ProposePlan, RevisePlan, RejectPlan, AdoptPlan, StartWorkflow, BindPlan, StopWorkflow;
    var parsed := ParseEvent(event);
    if parsed.Fail? {
      return Err(parsed.code);
    }
    match event.body
    case TaskCreated(c) => r := CreateTask(s, c);
    case TaskActivated(id) => r := ChangeLifecycle(s, id, Activate);
    case DependencyAdded(edge) => r := ReduceDependencyAdded(s, edge);
    case ExecutionPrepared(p) => r := ReducePrepared(s, p);
    case ExecutionTransition(taskId, attemptId, generation, profileDigest, input) =>
      r := TransitionAttempt(s, AttemptKey(attemptId, generation), taskId, profileDigest, input);
    case ExecutionReceipt(taskId, attemptId, generation, profileDigest, receipt) =>
      r := RecordReceipt(s, event, AttemptKey(attemptId, generation), taskId, profileDigest, receipt, sequence);
    case ExecutionAborted(taskId, attemptId, generation, profileDigest, reasonCode) =>
      r := AbortAttempt(s, AttemptKey(attemptId, generation), taskId, profileDigest, reasonCode, sequence);
    case TaskResolved(res) => r := ReduceResolved(s, res);
    case PlanProposed(plannerTaskId, p) => r := ProposePlan(s, plannerTaskId, p);
    case PlanRevised(base, p) => r := ReduceRevised(s, base, p);
    case PlanRejected(taskId, plannerTaskId, reasonCode) => r := RejectPlan(s, taskId, plannerTaskId, reasonCode);
    case PlanAdopted(taskId, planDigest) => r := ReduceAdopted(s, taskId, planDigest);
    case WorkflowStarted(a) => r := ReduceStarted(s, a);
    case WorkflowPlanBound(workflowId, planDigest, graphDigest) => r := ReduceBound(s, workflowId, planDigest, graphDigest);
    case WorkflowStopped(workflowId, state, reasonCode) => r := StopWorkflow(s, workflowId, state, reasonCode);
  }
}
