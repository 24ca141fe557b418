/** What every run of the task execution reducer keeps (packages/domain/src/execution.ts). */
module ExecutionSafety {
  import opened Wrappers
  import opened Identity
  import opened Dependencies
  import opened Lists
  import opened Attempts
  import opened Plans
  import opened Execution

  // ----- The invariant -----

  /** Contracts under their own ids, each with a lifecycle, and a well-formed acyclic graph over them. */
  ghost predicate GraphInv(contracts: map<TaskId, Contract>, lifecycles: map<TaskId, Lifecycle>, edges: seq<Edge>) {
    && (forall id :: id in contracts ==> contracts[id].taskId == id && id != Named(""))
    && lifecycles.Keys == contracts.Keys
    && WellFormedGraph(contracts.Keys, edges)
    && Acyclic(edges)
  }

  /** Attempts are the prepared ones, under their own keys, settled, and no newer than `last`. */
  ghost predicate AttemptInv(lifecycles: map<TaskId, Lifecycle>, prepared: map<AttemptKey, Prepared>,
                             attempts: map<AttemptKey, Attempt>, last: int) {
    && prepared.Keys == attempts.Keys
    && (forall k :: k in attempts ==> ValidAttempt(k, attempts[k], last))
    && (forall k :: k in prepared ==> prepared[k].taskId in lifecycles && !lifecycles[prepared[k].taskId].Draft?)
  }

  predicate ValidAttempt(k: AttemptKey, a: Attempt, last: int) {
    && Settled(a)
    && AttemptKey(a.attemptId, a.generation) == k
    && (a.terminalEventSequence.Some? ==> 1 <= a.terminalEventSequence.value <= last)
  }

  /** No two attempts of one task are live at once. */
  ghost predicate OneLiveAttempt(prepared: map<AttemptKey, Prepared>, attempts: map<AttemptKey, Attempt>) {
    forall j, k :: LiveFor(prepared, attempts, j) && LiveFor(prepared, attempts, k) && prepared[j].taskId == prepared[k].taskId ==>
      j == k
  }

  predicate LiveFor(prepared: map<AttemptKey, Prepared>, attempts: map<AttemptKey, Attempt>, k: AttemptKey) {
    k in attempts && k in prepared && !attempts[k].state.Terminal?
  }

  /** An aborted attempt has no receipt, and an attempt with a receipt has left `Planned`. */
  ghost predicate AbortInv(attempts: map<AttemptKey, Attempt>, aborted: map<AttemptKey, Abort>, receipts: map<AttemptKey, Receipt>) {
    && (forall k :: k in aborted ==> k in attempts && attempts[k].state == Terminal(Cancelled) && k !in receipts)
    && (forall k :: k in receipts ==> k in attempts && !attempts[k].state.Planned?)
  }

  /** The source of the edge has a recorded resolution, and it satisfies the edge. */
  predicate EdgeMet(e: Edge, resolutions: map<TaskId, TaskResolution>) {
    e.sourceTaskId in resolutions && DependencySatisfied(e, resolutions[e.sourceTaskId].resolution)
  }

  /** Every edge into a task that was ever prepared is met. */
  ghost predicate DependenciesMet(prepared: map<AttemptKey, Prepared>, edges: seq<Edge>, resolutions: map<TaskId, TaskResolution>) {
    forall k, e :: k in prepared && e in edges && e.dependentTaskId == prepared[k].taskId ==> EdgeMet(e, resolutions)
  }

  /** A recorded resolution is the lifecycle of its task, and a success was won by an attempt of the task. */
  ghost predicate ResolutionInv(lifecycles: map<TaskId, Lifecycle>, prepared: map<AttemptKey, Prepared>,
                                resolutions: map<TaskId, TaskResolution>) {
    forall id :: id in resolutions ==>
      && id in lifecycles && lifecycles[id] == Resolved(resolutions[id].resolution)
      && resolutions[id].taskId == id
      && (resolutions[id].resolution.Succeeded? ==> WasPrepared(prepared, id))
  }

  ghost predicate WasPrepared(prepared: map<AttemptKey, Prepared>, id: TaskId) {
    exists k :: k in prepared && prepared[k].taskId == id
  }

  /** Workflows target tasks with exactly the contracts they were authorised for. */
  ghost predicate WorkflowInv(contracts: map<TaskId, Contract>, workflows: map<string, Workflow>) {
    forall w :: w in workflows ==> WorkflowFits(contracts, w, workflows[w].authorization)
  }

  predicate WorkflowFits(contracts: map<TaskId, Contract>, w: string, a: Authorization) {
    && a.workflowId == w
    && HasContract(contracts, a.targetTaskId, a.targetContractDigest)
    && (a.planningSource.Some? ==> HasContract(contracts, a.planningSource.value.taskId, a.planningSource.value.contractDigest))
  }

  predicate HoldsGraph(w: Workflow) {
    w.state.Running? && w.authorization.graphDigest.Some?
  }

  /** A running workflow with a graph digest depends on exactly the graph of that digest. */
  ghost predicate FrozenGraphs(contracts: map<TaskId, Contract>, edges: seq<Edge>, workflows: map<string, Workflow>) {
    forall w :: w in workflows && HoldsGraph(workflows[w]) ==>
      workflows[w].authorization.graphDigest.value == TargetGraph(contracts, edges, workflows[w].authorization.targetTaskId)
  }

  /** Only tasks of an authorised graph are prepared under a workflow, with the authorised profile. */
  ghost predicate OnlyAuthorised(contracts: map<TaskId, Contract>, prepared: map<AttemptKey, Prepared>, workflows: map<string, Workflow>) {
    forall k :: k in prepared && prepared[k].workflowId.Some? ==> Authorised(contracts, prepared[k], workflows)
  }

  predicate Authorised(contracts: map<TaskId, Contract>, p: Prepared, workflows: map<string, Workflow>)
    requires p.workflowId.Some?
  {
    && p.workflowId.value in workflows
    && p.taskId in contracts
    && var a := workflows[p.workflowId.value].authorization;
       && a.graphDigest.Some? && a.graphDigest.value.GraphDigest? && contracts[p.taskId] in a.graphDigest.value.contracts
       && p.profileDigest == ProfileDigest(a.executionProfile)
  }

  ghost predicate Inv(s: State, last: int) {
    && GraphInv(s.contracts, s.lifecycles, s.edges)
    && AttemptInv(s.lifecycles, s.prepared, s.attempts, last)
    && OneLiveAttempt(s.prepared, s.attempts)
    && AbortInv(s.attempts, s.aborted, s.receipts)
    && DependenciesMet(s.prepared, s.edges, s.resolutions)
    && ResolutionInv(s.lifecycles, s.prepared, s.resolutions)
    && WorkflowInv(s.contracts, s.workflows)
    && FrozenGraphs(s.contracts, s.edges, s.workflows)
    && OnlyAuthorised(s.contracts, s.prepared, s.workflows)
  }

  lemma EmptyInv()
    ensures Inv(EMPTY_STATE, 0)
  {
    FinishOrderExcludesCycles([], []);
  }

  // ----- What may change from one state of a run to a later one -----

  ghost predicate Extends<K, V>(m: map<K, V>, n: map<K, V>) {
    forall k :: k in m ==> k in n && n[k] == m[k]
  }

  /** A resolved task stays as it is, and a task that was activated never returns to draft. */
  predicate LifecycleAdvances(a: Lifecycle, b: Lifecycle) {
    (a.Resolved? ==> b == a) && (b.Draft? ==> a.Draft?)
  }

  ghost predicate LifecyclesAdvance(m: map<TaskId, Lifecycle>, n: map<TaskId, Lifecycle>) {
    forall id :: id in m ==> id in n && LifecycleAdvances(m[id], n[id])
  }

  ghost predicate AttemptsEvolve(m: map<AttemptKey, Attempt>, n: map<AttemptKey, Attempt>, bound: int) {
    forall k :: k in m ==> k in n && Evolves(m[k], n[k], bound)
  }

  /** Nothing is prepared for a task that has already been resolved. */
  ghost predicate NonePreparedLate(lifecycles: map<TaskId, Lifecycle>, m: map<AttemptKey, Prepared>, n: map<AttemptKey, Prepared>) {
    forall k :: k in n && k !in m && n[k].taskId in lifecycles ==> !lifecycles[n[k].taskId].Resolved?
  }

  /** A workflow keeps its authorization; a graph digest is only ever filled in, and a stopped workflow stays stopped. */
  predicate SameAuthority(v: Workflow, w: Workflow) {
    && (v.authorization.graphDigest.Some? ==> w.authorization == v.authorization)
    && w.authorization.(graphDigest := None, planDigest := None) == v.authorization.(graphDigest := None, planDigest := None)
    && (!v.state.Running? ==> w.state == v.state)
  }

  ghost predicate WorkflowsKept(m: map<string, Workflow>, n: map<string, Workflow>) {
    forall w :: w in m ==> w in n && SameAuthority(m[w], n[w])
  }

  /** Nothing recorded is lost: records are only added, and attempts only evolve. */
  ghost predicate Grows(s: State, t: State, bound: int) {
    && Extends(s.contracts, t.contracts)
    && LifecyclesAdvance(s.lifecycles, t.lifecycles)
    && s.edges <= t.edges
    && Extends(s.prepared, t.prepared)
    && AttemptsEvolve(s.attempts, t.attempts, bound)
    && Extends(s.aborted, t.aborted)
    && Extends(s.receipts, t.receipts)
    && Extends(s.resolutions, t.resolutions)
    && NonePreparedLate(s.lifecycles, s.prepared, t.prepared)
    && WorkflowsKept(s.workflows, t.workflows)
  }

  lemma ExtendsTransitive<K, V>(m: map<K, V>, n: map<K, V>, o: map<K, V>)
    requires Extends(m, n) && Extends(n, o)
    ensures Extends(m, o)
  {
  }

  lemma LifecyclesTransitive(l: map<TaskId, Lifecycle>, m: map<TaskId, Lifecycle>, n: map<TaskId, Lifecycle>)
    requires LifecyclesAdvance(l, m) && LifecyclesAdvance(m, n)
    ensures LifecyclesAdvance(l, n)
  {
  }

  lemma AttemptsTransitive(l: map<AttemptKey, Attempt>, m: map<AttemptKey, Attempt>, n: map<AttemptKey, Attempt>, bound: int, later: int)
    requires AttemptsEvolve(l, m, bound) && AttemptsEvolve(m, n, later) && bound <= later
    ensures AttemptsEvolve(l, n, bound)
  {
  }

  lemma NonePreparedTransitive(l: map<TaskId, Lifecycle>, m: map<TaskId, Lifecycle>,
                               p: map<AttemptKey, Prepared>, q: map<AttemptKey, Prepared>, r: map<AttemptKey, Prepared>)
    requires LifecyclesAdvance(l, m) && NonePreparedLate(l, p, q) && NonePreparedLate(m, q, r) && Extends(q, r)
    ensures NonePreparedLate(l, p, r)
  {
  }

  lemma WorkflowsTransitive(l: map<string, Workflow>, m: map<string, Workflow>, n: map<string, Workflow>)
    requires WorkflowsKept(l, m) && WorkflowsKept(m, n)
    ensures WorkflowsKept(l, n)
  {
  }

  lemma GrowsTransitive(s: State, t: State, u: State, bound: int, later: int)
    requires Grows(s, t, bound) && Grows(t, u, later) && bound <= later
    ensures Grows(s, u, bound)
  {
    hide Extends, LifecyclesAdvance, AttemptsEvolve, NonePreparedLate, WorkflowsKept;
    ExtendsTransitive(s.contracts, t.contracts, u.contracts);
    LifecyclesTransitive(s.lifecycles, t.lifecycles, u.lifecycles);
    ExtendsTransitive(s.prepared, t.prepared, u.prepared);
    AttemptsTransitive(s.attempts, t.attempts, u.attempts, bound, later);
    ExtendsTransitive(s.aborted, t.aborted, u.aborted);
    ExtendsTransitive(s.receipts, t.receipts, u.receipts);
    ExtendsTransitive(s.resolutions, t.resolutions, u.resolutions);
    NonePreparedTransitive(s.lifecycles, t.lifecycles, s.prepared, t.prepared, u.prepared);
    WorkflowsTransitive(s.workflows, t.workflows, u.workflows);
  }

  lemma AttemptsReflexive(m: map<AttemptKey, Attempt>, bound: int)
    ensures AttemptsEvolve(m, m, bound)
  {
  }

  lemma WorkflowsReflexive(m: map<string, Workflow>)
    ensures WorkflowsKept(m, m)
  {
  }

  lemma GrowsReflexive(s: State, bound: int)
    ensures Grows(s, s, bound)
  {
    hide AttemptsEvolve, WorkflowsKept;
    AttemptsReflexive(s.attempts, bound);
    WorkflowsReflexive(s.workflows);
  }

  // ----- Frozen graphs under change -----

  lemma {:induction false} EdgesWithinNone(edges: seq<Edge>, more: seq<Edge>, tasks: set<TaskId>)
    requires forall e :: e in more ==> e.dependentTaskId !in tasks
    ensures EdgesWithin(edges + more, tasks) == EdgesWithin(edges, tasks)
  {
    if more == [] {
      assert edges + more == edges;
    } else {
      var n := |more| - 1;
      assert more[n] in more;
      EdgesWithinNone(edges, more[..n], tasks);
      assert (edges + more)[..|edges + more| - 1] == edges + more[..n];
    }
  }

  /** New tasks, and new edges into tasks outside the closure, leave the graph of a target as it was. */
  lemma TargetGraphKept(contracts: map<TaskId, Contract>, edges: seq<Edge>, grown: map<TaskId, Contract>, more: seq<Edge>, target: TaskId)
    requires WellFormedGraph(contracts.Keys, edges) && target in contracts
    requires Extends(contracts, grown)
    requires forall e :: e in more ==> e.dependentTaskId !in Closure(edges, target)
    ensures Closure(edges + more, target) == Closure(edges, target)
    ensures TargetGraph(grown, edges + more, target) == TargetGraph(contracts, edges, target)
  {
    var c := Closure(edges, target);
    ClosureUnaffected(edges, more, target);
    ClosureWithinKnown(contracts.Keys, edges, target);
    EdgesWithinNone(edges, more, c);
    assert (set id | id in c && id in contracts :: contracts[id]) == set id | id in c && id in grown :: grown[id];
  }

  lemma FrozenGraphsKept(contracts: map<TaskId, Contract>, edges: seq<Edge>, grown: map<TaskId, Contract>, more: seq<Edge>,
                         workflows: map<string, Workflow>)
    requires WellFormedGraph(contracts.Keys, edges)
    requires WorkflowInv(contracts, workflows) && FrozenGraphs(contracts, edges, workflows)
    requires Extends(contracts, grown)
    requires forall w, e :: w in workflows && HoldsGraph(workflows[w]) && e in more ==>
               e.dependentTaskId !in Closure(edges, workflows[w].authorization.targetTaskId)
    ensures FrozenGraphs(grown, edges + more, workflows)
  {
    forall w | w in workflows && HoldsGraph(workflows[w])
      ensures workflows[w].authorization.graphDigest.value
           == TargetGraph(grown, edges + more, workflows[w].authorization.targetTaskId)
    {
      assert WorkflowFits(contracts, w, workflows[w].authorization);
      TargetGraphKept(contracts, edges, grown, more, workflows[w].authorization.targetTaskId);
    }
  }

  // ----- How the parts of the invariant survive a change of their records -----

  lemma AttemptInvGrows(lifecycles: map<TaskId, Lifecycle>, grown: map<TaskId, Lifecycle>, prepared: map<AttemptKey, Prepared>,
                        attempts: map<AttemptKey, Attempt>, last: int, sequence: int)
    requires AttemptInv(lifecycles, prepared, attempts, last) && last <= sequence
    requires LifecyclesAdvance(lifecycles, grown)
    ensures AttemptInv(grown, prepared, attempts, sequence)
  {
  }

  lemma ResolutionInvGrows(lifecycles: map<TaskId, Lifecycle>, grown: map<TaskId, Lifecycle>,
                           prepared: map<AttemptKey, Prepared>, resolutions: map<TaskId, TaskResolution>)
    requires ResolutionInv(lifecycles, prepared, resolutions) && LifecyclesAdvance(lifecycles, grown)
    ensures ResolutionInv(grown, prepared, resolutions)
  {
  }

  lemma ContractsGrow(contracts: map<TaskId, Contract>, grown: map<TaskId, Contract>, prepared: map<AttemptKey, Prepared>,
                      workflows: map<string, Workflow>)
    requires Extends(contracts, grown) && WorkflowInv(contracts, workflows) && OnlyAuthorised(contracts, prepared, workflows)
    ensures WorkflowInv(grown, workflows) && OnlyAuthorised(grown, prepared, workflows)
  {
    forall w | w in workflows ensures WorkflowFits(grown, w, workflows[w].authorization) {
      assert WorkflowFits(contracts, w, workflows[w].authorization);
    }
    forall k | k in prepared && prepared[k].workflowId.Some? ensures Authorised(grown, prepared[k], workflows) {
      assert Authorised(contracts, prepared[k], workflows);
    }
  }

  lemma WorkflowChanges(contracts: map<TaskId, Contract>, edges: seq<Edge>, prepared: map<AttemptKey, Prepared>,
                        workflows: map<string, Workflow>, id: string, w: Workflow)
    requires WorkflowInv(contracts, workflows) && FrozenGraphs(contracts, edges, workflows) && OnlyAuthorised(contracts, prepared, workflows)
    requires id in workflows ==> SameAuthority(workflows[id], w)
    requires WorkflowFits(contracts, id, w.authorization)
    requires HoldsGraph(w) ==> w.authorization.graphDigest.value == TargetGraph(contracts, edges, w.authorization.targetTaskId)
    ensures WorkflowInv(contracts, workflows[id := w])
    ensures FrozenGraphs(contracts, edges, workflows[id := w])
    ensures OnlyAuthorised(contracts, prepared, workflows[id := w])
    ensures WorkflowsKept(workflows, workflows[id := w])
  {
    hide TargetGraph, WorkflowFits;
    WorkflowsReflexive(workflows);
    forall k | k in prepared && prepared[k].workflowId.Some? ensures Authorised(contracts, prepared[k], workflows[id := w]) {
      assert Authorised(contracts, prepared[k], workflows);
    }
  }

  /** One attempt evolves. */
  lemma AttemptChanges(lifecycles: map<TaskId, Lifecycle>, prepared: map<AttemptKey, Prepared>, attempts: map<AttemptKey, Attempt>,
                       k: AttemptKey, a: Attempt, last: int, sequence: int)
    requires AttemptInv(lifecycles, prepared, attempts, last) && OneLiveAttempt(prepared, attempts) && last < sequence
    requires k in attempts && Evolves(attempts[k], a, last) && ValidAttempt(k, a, sequence)
    ensures AttemptInv(lifecycles, prepared, attempts[k := a], sequence)
    ensures OneLiveAttempt(prepared, attempts[k := a])
    ensures AttemptsEvolve(attempts, attempts[k := a], last)
  {
    AttemptsReflexive(attempts, last);
    var changed := attempts[k := a];
    forall i, j | LiveFor(prepared, changed, i) && LiveFor(prepared, changed, j) && prepared[i].taskId == prepared[j].taskId
      ensures i == j
    {
      assert LiveFor(prepared, attempts, i) && LiveFor(prepared, attempts, j);
    }
  }

  lemma AbortInvEvolves(attempts: map<AttemptKey, Attempt>, grown: map<AttemptKey, Attempt>,
                        aborted: map<AttemptKey, Abort>, receipts: map<AttemptKey, Receipt>, bound: int)
    requires AbortInv(attempts, aborted, receipts) && AttemptsEvolve(attempts, grown, bound)
    ensures AbortInv(grown, aborted, receipts)
  {
  }

  lemma DependenciesMetGrows(prepared: map<AttemptKey, Prepared>, edges: seq<Edge>,
                             resolutions: map<TaskId, TaskResolution>, grown: map<TaskId, TaskResolution>)
    requires DependenciesMet(prepared, edges, resolutions) && Extends(resolutions, grown)
    ensures DependenciesMet(prepared, edges, grown)
  {
  }

  lemma DependenciesMetMore(prepared: map<AttemptKey, Prepared>, edges: seq<Edge>, more: seq<Edge>, resolutions: map<TaskId, TaskResolution>)
    requires DependenciesMet(prepared, edges, resolutions)
    requires forall e :: e in more ==> !WasPrepared(prepared, e.dependentTaskId)
    ensures DependenciesMet(prepared, edges + more, resolutions)
  {
    forall k, e | k in prepared && e in edges + more && e.dependentTaskId == prepared[k].taskId ensures EdgeMet(e, resolutions) {
      if e in more {
        assert WasPrepared(prepared, e.dependentTaskId);
      }
    }
  }

  // ----- Steps, one kind at a time -----

  lemma NewDraft(lifecycles: map<TaskId, Lifecycle>, id: TaskId)
    requires id !in lifecycles
    ensures LifecyclesAdvance(lifecycles, lifecycles[id := Draft])
  {
  }

  lemma NewContract(contracts: map<TaskId, Contract>, lifecycles: map<TaskId, Lifecycle>, edges: seq<Edge>, c: Contract)
    requires GraphInv(contracts, lifecycles, edges) && c.taskId !in contracts && c.taskId != Named("")
    ensures GraphInv(contracts[c.taskId := c], lifecycles[c.taskId := Draft], edges)
    ensures Extends(contracts, contracts[c.taskId := c])
  {
    hide Acyclic;
  }

  lemma CreateTaskKeeps(s: State, c: Contract, last: int, sequence: int)
    requires Inv(s, last) && last < sequence && c.taskId != Named("") && c.taskId !in s.contracts
    ensures var t := s.(contracts := s.contracts[c.taskId := c], lifecycles := s.lifecycles[c.taskId := Draft]);
            Inv(t, sequence) && Grows(s, t, last)
  {
    assert c.taskId !in s.lifecycles;
    hide GraphInv, AttemptInv, OneLiveAttempt, AbortInv, DependenciesMet, ResolutionInv, WorkflowInv, FrozenGraphs, OnlyAuthorised;
    hide Extends, LifecyclesAdvance, AttemptsEvolve, NonePreparedLate, WorkflowsKept;
    var lifecycles := s.lifecycles[c.taskId := Draft];
    GrowsReflexive(s, last);
    NewDraft(s.lifecycles, c.taskId);
    NewContract(s.contracts, s.lifecycles, s.edges, c);
    AttemptInvGrows(s.lifecycles, lifecycles, s.prepared, s.attempts, last, sequence);
    ResolutionInvGrows(s.lifecycles, lifecycles, s.prepared, s.resolutions);
    ContractsGrow(s.contracts, s.contracts[c.taskId := c], s.prepared, s.workflows);
    NothingAdded(s, s.contracts[c.taskId := c]);
  }

  /** New contracts alone leave the frozen graphs as they were. */
  lemma NothingAdded(s: State, grown: map<TaskId, Contract>)
    requires GraphInv(s.contracts, s.lifecycles, s.edges) && WorkflowInv(s.contracts, s.workflows)
    requires FrozenGraphs(s.contracts, s.edges, s.workflows) && Extends(s.contracts, grown)
    ensures FrozenGraphs(grown, s.edges, s.workflows)
  {
    FrozenGraphsKept(s.contracts, s.edges, grown, [], s.workflows);
    assert s.edges + [] == s.edges;
  }

  lemma LifecycleChanges(contracts: map<TaskId, Contract>, lifecycles: map<TaskId, Lifecycle>, edges: seq<Edge>, id: TaskId, l: Lifecycle)
    requires GraphInv(contracts, lifecycles, edges)
    requires id in lifecycles && LifecycleAdvances(lifecycles[id], l)
    ensures GraphInv(contracts, lifecycles[id := l], edges)
    ensures LifecyclesAdvance(lifecycles, lifecycles[id := l])
  {
    hide Acyclic, WellFormedGraph;
  }

  lemma ChangeLifecycleKeeps(s: State, id: TaskId, l: Lifecycle, last: int, sequence: int)
    requires Inv(s, last) && last < sequence
    requires id in s.lifecycles && LifecycleAdvances(s.lifecycles[id], l)
    ensures var t := s.(lifecycles := s.lifecycles[id := l]);
            Inv(t, sequence) && Grows(s, t, last)
  {
    hide GraphInv, AttemptInv, OneLiveAttempt, AbortInv, DependenciesMet, ResolutionInv, WorkflowInv, FrozenGraphs, OnlyAuthorised;
    hide Extends, LifecyclesAdvance, AttemptsEvolve, NonePreparedLate, WorkflowsKept;
    var lifecycles := s.lifecycles[id := l];
    GrowsReflexive(s, last);
    LifecycleChanges(s.contracts, s.lifecycles, s.edges, id, l);
    AttemptInvGrows(s.lifecycles, lifecycles, s.prepared, s.attempts, last, sequence);
    ResolutionInvGrows(s.lifecycles, lifecycles, s.prepared, s.resolutions);
  }

  lemma SameLifecycles(lifecycles: map<TaskId, Lifecycle>)
    ensures LifecyclesAdvance(lifecycles, lifecycles)
  {
  }

  lemma AddDependencyKeeps(s: State, edge: Edge, last: int, sequence: int)
    requires Inv(s, last) && last < sequence
    requires !HeldByWorkflow(s, edge.dependentTaskId, false) && !EverPrepared(s, edge.dependentTaskId)
    requires DependencyCheck(s.contracts.Keys, s.edges + [edge]) == Pass
    ensures var t := s.(edges := s.edges + [edge]);
            Inv(t, sequence) && Grows(s, t, last)
  {
    assert GraphInv(s.contracts, s.lifecycles, s.edges + [edge]);
    assert !WasPrepared(s.prepared, edge.dependentTaskId);
    EdgesMiss(s, edge);
    hide GraphInv, AttemptInv, OneLiveAttempt, AbortInv, DependenciesMet, ResolutionInv, WorkflowInv, FrozenGraphs, OnlyAuthorised;
    hide Extends, LifecyclesAdvance, AttemptsEvolve, NonePreparedLate, WorkflowsKept;
    GrowsReflexive(s, last);
    SameLifecycles(s.lifecycles);
    AttemptInvGrows(s.lifecycles, s.lifecycles, s.prepared, s.attempts, last, sequence);
    DependenciesMetMore(s.prepared, s.edges, [edge], s.resolutions);
  }

  lemma EdgesMiss(s: State, edge: Edge)
    requires GraphInv(s.contracts, s.lifecycles, s.edges) && WorkflowInv(s.contracts, s.workflows)
    requires FrozenGraphs(s.contracts, s.edges, s.workflows)
    requires !HeldByWorkflow(s, edge.dependentTaskId, false)
    ensures FrozenGraphs(s.contracts, s.edges + [edge], s.workflows)
  {
    forall w | w in s.workflows && HoldsGraph(s.workflows[w])
      ensures edge.dependentTaskId !in Closure(s.edges, s.workflows[w].authorization.targetTaskId)
    {
      assert !Holds(s, s.workflows[w], edge.dependentTaskId, false);
    }
    FrozenGraphsKept(s.contracts, s.edges, s.contracts, [edge], s.workflows);
  }

  // Preparing an attempt

  lemma {:induction false} EdgesIntoMembers(edges: seq<Edge>, id: TaskId)
    ensures forall e :: e in EdgesInto(edges, id) <==> e in edges && e.dependentTaskId == id
  {
    if edges != [] {
      EdgesIntoMembers(edges[..|edges| - 1], id);
      assert edges == edges[..|edges| - 1] + [edges[|edges| - 1]];
    }
  }

  lemma NewAttemptValid(lifecycles: map<TaskId, Lifecycle>, prepared: map<AttemptKey, Prepared>, attempts: map<AttemptKey, Attempt>,
                        k: AttemptKey, p: Prepared, last: int, sequence: int)
    requires AttemptInv(lifecycles, prepared, attempts, last) && last < sequence
    requires k == AttemptKey(p.attemptId, p.generation) && k !in prepared && p.generation >= 1
    requires p.taskId in lifecycles && lifecycles[p.taskId].Active?
    ensures AttemptInv(lifecycles, prepared[k := p], attempts[k := NewAttempt(p)], sequence)
    ensures AttemptsEvolve(attempts, attempts[k := NewAttempt(p)], last)
    ensures NonePreparedLate(lifecycles, prepared, prepared[k := p])
    ensures Extends(prepared, prepared[k := p])
  {
    AttemptsReflexive(attempts, last);
  }

  lemma NewAttemptKeeps(s: State, k: AttemptKey, p: Prepared, last: int, sequence: int)
    requires AttemptInv(s.lifecycles, s.prepared, s.attempts, last) && OneLiveAttempt(s.prepared, s.attempts)
    requires AbortInv(s.attempts, s.aborted, s.receipts) && last < sequence
    requires k == AttemptKey(p.attemptId, p.generation) && k !in s.prepared && p.generation >= 1
    requires p.taskId in s.lifecycles && s.lifecycles[p.taskId].Active? && !HasLiveAttempt(s, p.taskId)
    ensures AttemptInv(s.lifecycles, s.prepared[k := p], s.attempts[k := NewAttempt(p)], sequence)
    ensures OneLiveAttempt(s.prepared[k := p], s.attempts[k := NewAttempt(p)])
    ensures AbortInv(s.attempts[k := NewAttempt(p)], s.aborted, s.receipts)
    ensures AttemptsEvolve(s.attempts, s.attempts[k := NewAttempt(p)], last)
    ensures NonePreparedLate(s.lifecycles, s.prepared, s.prepared[k := p])
    ensures Extends(s.prepared, s.prepared[k := p])
  {
    hide AttemptInv, OneLiveAttempt, AbortInv, AttemptsEvolve, NonePreparedLate, Extends, HasLiveAttempt;
    NewAttemptValid(s.lifecycles, s.prepared, s.attempts, k, p, last, sequence);
    NewAttemptAlone(s, k, p, last);
    AbortInvEvolves(s.attempts, s.attempts[k := NewAttempt(p)], s.aborted, s.receipts, last);
  }

  lemma NewAttemptAlone(s: State, k: AttemptKey, p: Prepared, last: int)
    requires AttemptInv(s.lifecycles, s.prepared, s.attempts, last) && OneLiveAttempt(s.prepared, s.attempts)
    requires k !in s.prepared && !HasLiveAttempt(s, p.taskId)
    ensures OneLiveAttempt(s.prepared[k := p], s.attempts[k := NewAttempt(p)])
  {
    var prepared, attempts := s.prepared[k := p], s.attempts[k := NewAttempt(p)];
    forall j | LiveFor(prepared, attempts, j) && prepared[j].taskId == p.taskId ensures j == k {
      if j != k {
        assert ValidAttempt(j, s.attempts[j], last) && Live(s.attempts[j]);
        assert false;
      }
    }
    forall i, j | LiveFor(prepared, attempts, i) && LiveFor(prepared, attempts, j) && prepared[i].taskId == prepared[j].taskId
      ensures i == j
    {
      assert i != k && j != k ==> LiveFor(s.prepared, s.attempts, i) && LiveFor(s.prepared, s.attempts, j);
    }
  }

  lemma PreparedDependencies(s: State, k: AttemptKey, p: Prepared)
    requires DependenciesMet(s.prepared, s.edges, s.resolutions) && JoinReady(s, p.taskId, p.join)
    ensures DependenciesMet(s.prepared[k := p], s.edges, s.resolutions)
  {
    EdgesIntoMembers(s.edges, p.taskId);
    forall e | e in s.edges && e.dependentTaskId == p.taskId ensures EdgeMet(e, s.resolutions) {
      assert e in EdgesInto(s.edges, p.taskId) && EdgeReady(s, e, p.join);
    }
  }

  lemma PreparedAuthorised(s: State, k: AttemptKey, p: Prepared, closure: set<TaskId>)
    requires OnlyAuthorised(s.contracts, s.prepared, s.workflows)
    requires p.taskId in s.contracts && WorkflowPermits(s, p, closure) == Pass
    ensures OnlyAuthorised(s.contracts, s.prepared[k := p], s.workflows)
  {
    if p.workflowId.Some? {
      assert Authorised(s.contracts, p, s.workflows);
    }
  }

  lemma PreparedResolutions(lifecycles: map<TaskId, Lifecycle>, prepared: map<AttemptKey, Prepared>, grown: map<AttemptKey, Prepared>,
                            resolutions: map<TaskId, TaskResolution>)
    requires ResolutionInv(lifecycles, prepared, resolutions) && Extends(prepared, grown)
    ensures ResolutionInv(lifecycles, grown, resolutions)
  {
    forall id | id in resolutions && resolutions[id].resolution.Succeeded? ensures WasPrepared(grown, id) {
      var k :| k in prepared && prepared[k].taskId == id;
      assert k in grown;
    }
  }

  lemma PrepareKeeps(s: State, p: Prepared, closure: set<TaskId>, last: int, sequence: int)
    requires Inv(s, last) && last < sequence && p.generation >= 1
    requires Prepare(s, p, closure).Ok?
    ensures Inv(Prepare(s, p, closure).value, sequence) && Grows(s, Prepare(s, p, closure).value, last)
  {
    var k := AttemptKey(p.attemptId, p.generation);
    hide GraphInv, AttemptInv, OneLiveAttempt, AbortInv, DependenciesMet, ResolutionInv, WorkflowInv, FrozenGraphs, OnlyAuthorised;
    hide Extends, LifecyclesAdvance, AttemptsEvolve, NonePreparedLate, WorkflowsKept;
    hide HasLiveAttempt, JoinReady, WorkflowPermits;
    GrowsReflexive(s, last);
    NewAttemptKeeps(s, k, p, last, sequence);
    PreparedDependencies(s, k, p);
    PreparedAuthorised(s, k, p, closure);
    PreparedResolutions(s.lifecycles, s.prepared, s.prepared[k := p], s.resolutions);
  }

  // Attempts that move on

  lemma AttemptMoves(s: State, k: AttemptKey, a: Attempt, last: int, sequence: int)
    requires Inv(s, last) && last < sequence
    requires k in s.attempts && Evolves(s.attempts[k], a, last) && ValidAttempt(k, a, sequence)
    ensures var t := s.(attempts := s.attempts[k := a]);
            Inv(t, sequence) && Grows(s, t, last)
  {
    hide GraphInv, AttemptInv, OneLiveAttempt, AbortInv, DependenciesMet, ResolutionInv, WorkflowInv, FrozenGraphs, OnlyAuthorised;
    hide Extends, LifecyclesAdvance, AttemptsEvolve, NonePreparedLate, WorkflowsKept;
    GrowsReflexive(s, last);
    AttemptChanges(s.lifecycles, s.prepared, s.attempts, k, a, last, sequence);
    AbortInvEvolves(s.attempts, s.attempts[k := a], s.aborted, s.receipts, last);
  }

  lemma AttemptKnown(s: State, k: AttemptKey, last: int)
    requires AttemptInv(s.lifecycles, s.prepared, s.attempts, last) && k in s.attempts
    ensures ValidAttempt(k, s.attempts[k], last)
  {
  }

  /** An input without a terminal event moves an attempt without one. */
  lemma DispatchStays(k: AttemptKey, a: Attempt, input: DispatchInput, last: int, sequence: int)
    requires ValidAttempt(k, a, last) && last < sequence && ReduceDispatch(a, input).Ok?
    requires !input.ReconcileNotFoundIdempotent? && !input.ManualResolution?
    requires input.TerminalReceipt? ==> input.eventSequence == sequence
    ensures Evolves(a, ReduceDispatch(a, input).value, last) && ValidAttempt(k, ReduceDispatch(a, input).value, sequence)
  {
    DispatchEvolves(a, input, last);
  }

  lemma TransitionKeeps(s: State, k: AttemptKey, taskId: TaskId, profileDigest: Digest, input: DispatchInput, last: int, sequence: int)
    requires Inv(s, last) && last < sequence
    requires TransitionAttempt(s, k, taskId, profileDigest, input).Ok?
    ensures var t := TransitionAttempt(s, k, taskId, profileDigest, input).value;
            Inv(t, sequence) && Grows(s, t, last)
  {
    AttemptKnown(s, k, last);
    hide Inv, Grows, ReduceDispatch;
    DispatchStays(k, s.attempts[k], input, last, sequence);
    AttemptMoves(s, k, ReduceDispatch(s.attempts[k], input).value, last, sequence);
  }

  lemma NewAbort(attempts: map<AttemptKey, Attempt>, aborted: map<AttemptKey, Abort>, receipts: map<AttemptKey, Receipt>,
                 k: AttemptKey, a: Abort)
    requires AbortInv(attempts, aborted, receipts)
    requires k in attempts && attempts[k].state == Terminal(Cancelled) && k !in receipts
    ensures AbortInv(attempts, aborted[k := a], receipts)
    ensures k !in aborted ==> Extends(aborted, aborted[k := a])
  {
  }

  lemma PlannedIsUntouched(s: State, k: AttemptKey)
    requires AbortInv(s.attempts, s.aborted, s.receipts) && k in s.attempts && s.attempts[k].state.Planned?
    ensures k !in s.aborted && k !in s.receipts
  {
  }

  lemma AbortKeeps(s: State, k: AttemptKey, taskId: TaskId, profileDigest: Digest, reasonCode: string, last: int, sequence: int)
    requires Inv(s, last) && last < sequence && 1 <= sequence
    requires AbortAttempt(s, k, taskId, profileDigest, reasonCode, sequence).Ok?
    ensures var t := AbortAttempt(s, k, taskId, profileDigest, reasonCode, sequence).value;
            Inv(t, sequence) && Grows(s, t, last)
  {
    hide GraphInv, AttemptInv, OneLiveAttempt, AbortInv, DependenciesMet, ResolutionInv, WorkflowInv, FrozenGraphs, OnlyAuthorised;
    hide Extends, LifecyclesAdvance, AttemptsEvolve, NonePreparedLate, WorkflowsKept;
    var a := s.attempts[k].(state := Terminal(Cancelled), terminalEventSequence := Some(sequence));
    AttemptKnown(s, k, last);
    PlannedIsUntouched(s, k);
    AttemptMoves(s, k, a, last, sequence);
    NewAbort(s.attempts[k := a], s.aborted, s.receipts, k, Abort(reasonCode, sequence));
  }

  lemma NewReceipt(attempts: map<AttemptKey, Attempt>, aborted: map<AttemptKey, Abort>, receipts: map<AttemptKey, Receipt>,
                   k: AttemptKey, r: Receipt)
    requires AbortInv(attempts, aborted, receipts)
    requires k in attempts && !attempts[k].state.Planned? && k !in aborted && k !in receipts
    ensures AbortInv(attempts, aborted, receipts[k := r])
    ensures Extends(receipts, receipts[k := r])
  {
  }

  lemma Later(s: State, last: int, sequence: int)
    requires Inv(s, last) && last <= sequence
    ensures Inv(s, sequence) && Grows(s, s, last)
  {
    hide GraphInv, AttemptInv, OneLiveAttempt, AbortInv, DependenciesMet, ResolutionInv, WorkflowInv, FrozenGraphs, OnlyAuthorised;
    hide Extends, LifecyclesAdvance, AttemptsEvolve, NonePreparedLate, WorkflowsKept;
    GrowsReflexive(s, last);
    SameLifecycles(s.lifecycles);
    AttemptInvGrows(s.lifecycles, s.lifecycles, s.prepared, s.attempts, last, sequence);
  }

  lemma ReceiptKeeps(s: State, e: Event, k: AttemptKey, taskId: TaskId, profileDigest: Digest, r: Receipt, last: int, sequence: int)
    requires Inv(s, last) && last < sequence
    requires RecordReceipt(s, e, k, taskId, profileDigest, r, sequence).Ok?
    ensures var t := RecordReceipt(s, e, k, taskId, profileDigest, r, sequence).value;
            Inv(t, sequence) && Grows(s, t, last)
  {
    hide GraphInv, AttemptInv, OneLiveAttempt, AbortInv, DependenciesMet, ResolutionInv, WorkflowInv, FrozenGraphs, OnlyAuthorised;
    hide Extends, LifecyclesAdvance, AttemptsEvolve, NonePreparedLate, WorkflowsKept;
    hide ReduceDispatch, ReceiptMatches, ProvenanceMatches;
    if k in s.receipts {
      Later(s, last, sequence);
    } else {
      var input := TerminalReceipt(r.outcome, sequence, Some(r.providerOperationId));
      AttemptKnown(s, k, last);
      DispatchStays(k, s.attempts[k], input, last, sequence);
      var a := ReduceDispatch(s.attempts[k], input).value;
      AttemptMoves(s, k, a, last, sequence);
      NewReceipt(s.attempts[k := a], s.aborted, s.receipts, k, r);
    }
  }

  // Resolving a task

  lemma SuccessWasPrepared(s: State, r: TaskResolution)
    requires ResolveTask(ResolutionRequest(r), TaskAttempts(s, r.taskId)) == Ok(Some(r)) && r.resolution.Succeeded?
    ensures WasPrepared(s.prepared, r.taskId)
  {
    hide ResolveTask;
    var xs := TaskAttempts(s, r.taskId);
    ResolveMeaning(ResolutionRequest(r), xs);
    assert exists x :: x in xs && IsSuccess(x);
    var keys := Enumerate(AttemptKeysOf(s, r.taskId));
    assert keys[0] in Elements(keys);
  }

  lemma NewResolution(lifecycles: map<TaskId, Lifecycle>, prepared: map<AttemptKey, Prepared>,
                      resolutions: map<TaskId, TaskResolution>, r: TaskResolution)
    requires ResolutionInv(lifecycles, prepared, resolutions)
    requires r.taskId in lifecycles && !lifecycles[r.taskId].Resolved?
    requires r.resolution.Succeeded? ==> WasPrepared(prepared, r.taskId)
    ensures ResolutionInv(lifecycles[r.taskId := Resolved(r.resolution)], prepared, resolutions[r.taskId := r])
    ensures Extends(resolutions, resolutions[r.taskId := r])
  {
  }

  lemma ResolveKeeps(s: State, r: TaskResolution, last: int, sequence: int)
    requires Inv(s, last) && last < sequence
    requires RecordResolution(s, r, TaskAttempts(s, r.taskId)).Ok?
    ensures var t := RecordResolution(s, r, TaskAttempts(s, r.taskId)).value;
            Inv(t, sequence) && Grows(s, t, last)
  {
    hide GraphInv, AttemptInv, OneLiveAttempt, AbortInv, DependenciesMet, ResolutionInv, WorkflowInv, FrozenGraphs, OnlyAuthorised;
    hide Extends, LifecyclesAdvance, AttemptsEvolve, NonePreparedLate, WorkflowsKept;
    hide ResolveTask, TaskAttempts;
    if r.resolution.Succeeded? {
      SuccessWasPrepared(s, r);
    }
    ChangeLifecycleKeeps(s, r.taskId, Resolved(r.resolution), last, sequence);
    NewResolution(s.lifecycles, s.prepared, s.resolutions, r);
    DependenciesMetGrows(s.prepared, s.edges, s.resolutions, s.resolutions[r.taskId := r]);
  }

  // Plans

  /** The state apart from its plans. */
  ghost predicate SameButPlans(s: State, t: State) {
    t == s.(plans := t.plans, plansByPlanner := t.plansByPlanner, latestPlansByTask := t.latestPlansByTask,
            planRejectionsByPlanner := t.planRejectionsByPlanner, adopted := t.adopted, planRejections := t.planRejections)
  }

  lemma PlanStepKeeps(s: State, t: State, last: int, sequence: int)
    requires Inv(s, last) && last < sequence && SameButPlans(s, t)
    ensures Inv(t, sequence) && Grows(s, t, last)
  {
    Later(s, last, sequence);
    hide GraphInv, AttemptInv, OneLiveAttempt, AbortInv, DependenciesMet, ResolutionInv, WorkflowInv, FrozenGraphs, OnlyAuthorised;
    hide Extends, LifecyclesAdvance, AttemptsEvolve, NonePreparedLate, WorkflowsKept;
  }

  /** What adding a list of fresh contracts changes. */
  lemma {:induction false} AddContractsMeaning(contracts: map<TaskId, Contract>, cs: seq<Contract>)
    requires forall c :: c in cs ==> c.taskId !in contracts
    ensures var grown := AddContracts(contracts, cs);
            && grown.Keys == contracts.Keys + Ids(cs)
            && Extends(contracts, grown)
            && (forall id :: id in grown && id !in contracts ==> grown[id].taskId == id)
  {
    if cs != [] {
      var n := |cs| - 1;
      assert cs == cs[..n] + [cs[n]];
      AddContractsMeaning(contracts, cs[..n]);
      assert Ids(cs) == Ids(cs[..n]) + {cs[n].taskId};
    }
  }

  lemma {:induction false} AddDraftsMeaning(lifecycles: map<TaskId, Lifecycle>, cs: seq<Contract>)
    requires forall c :: c in cs ==> c.taskId !in lifecycles
    ensures var grown := AddDrafts(lifecycles, cs);
            grown.Keys == lifecycles.Keys + Ids(cs) && LifecyclesAdvance(lifecycles, grown)
  {
    if cs != [] {
      var n := |cs| - 1;
      assert cs == cs[..n] + [cs[n]];
      AddDraftsMeaning(lifecycles, cs[..n]);
      assert Ids(cs) == Ids(cs[..n]) + {cs[n].taskId};
    }
  }

  lemma ChildrenAreIds(p: Plan)
    ensures Children(p) == Ids(Adopted(p).contracts)
    ensures forall c :: c in Adopted(p).contracts ==> c.taskId.PlanChild?
  {
    var cs := Adopted(p).contracts;
    forall id | id in Children(p) ensures id in Ids(cs) {
      var t :| t in p.tasks && id == Child(p, t.key);
      var i :| 0 <= i < |p.tasks| && p.tasks[i] == t;
      assert cs[i] in cs;
    }
    forall id | id in Ids(cs) ensures id in Children(p) {
      var c :| c in cs && c.taskId == id;
      var i :| 0 <= i < |cs| && cs[i] == c;
      assert p.tasks[i] in p.tasks;
    }
  }

  /** Derived edges lead into new tasks or into the source task. */
  lemma AdoptedDependents(p: Plan)
    requires ParsedPlan(p)
    ensures forall e :: e in Adopted(p).edges ==> e.dependentTaskId == p.sourceTaskId || e.dependentTaskId in Ids(Adopted(p).contracts)
  {
    hide ParsedPlan, Adopted;
    AdoptedEnds(p);
    ChildrenAreIds(p);
  }

  lemma AdoptedGraph(contracts: map<TaskId, Contract>, lifecycles: map<TaskId, Lifecycle>, edges: seq<Edge>,
                     grown: map<TaskId, Contract>, grownLifecycles: map<TaskId, Lifecycle>, grownEdges: seq<Edge>)
    requires GraphInv(contracts, lifecycles, edges) && Extends(contracts, grown)
    requires forall id :: id in grown && id !in contracts ==> grown[id].taskId == id && id != Named("")
    requires grownLifecycles.Keys == grown.Keys && DependencyCheck(grown.Keys, grownEdges) == Pass
    ensures GraphInv(grown, grownLifecycles, grownEdges)
  {
    hide Acyclic, WellFormedGraph;
  }

  lemma AdoptionUnheld(s: State, p: Plan)
    requires GraphInv(s.contracts, s.lifecycles, s.edges) && WorkflowInv(s.contracts, s.workflows)
    requires ParsedPlan(p) && FreshContracts(s.contracts, Adopted(p).contracts)
    requires !HeldByWorkflow(s, p.sourceTaskId, true)
    ensures forall w, e :: w in s.workflows && HoldsGraph(s.workflows[w]) && e in Adopted(p).edges ==>
              e.dependentTaskId !in Closure(s.edges, s.workflows[w].authorization.targetTaskId)
  {
    AdoptedDependents(p);
    hide ParsedPlan, Adopted;
    forall w, e | w in s.workflows && HoldsGraph(s.workflows[w]) && e in Adopted(p).edges
      ensures e.dependentTaskId !in Closure(s.edges, s.workflows[w].authorization.targetTaskId)
    {
      assert WorkflowFits(s.contracts, w, s.workflows[w].authorization);
      ClosureWithinKnown(s.contracts.Keys, s.edges, s.workflows[w].authorization.targetTaskId);
      assert !Holds(s, s.workflows[w], p.sourceTaskId, true);
    }
  }

  lemma AdoptionUnprepared(s: State, p: Plan, last: int)
    requires AttemptInv(s.lifecycles, s.prepared, s.attempts, last) && s.lifecycles.Keys == s.contracts.Keys
    requires ParsedPlan(p) && FreshContracts(s.contracts, Adopted(p).contracts)
    requires !EverPrepared(s, p.sourceTaskId)
    ensures forall e :: e in Adopted(p).edges ==> !WasPrepared(s.prepared, e.dependentTaskId)
  {
    AdoptedDependents(p);
    hide ParsedPlan, Adopted;
  }

  lemma AdoptKeeps(s: State, p: Plan, last: int, sequence: int)
    requires Inv(s, last) && last < sequence
    requires ParsedPlan(p) && FreshContracts(s.contracts, Adopted(p).contracts)
    requires !HeldByWorkflow(s, p.sourceTaskId, true) && !EverPrepared(s, p.sourceTaskId)
    requires var t := WithAdoption(s, p.planDigest, Adopted(p)); DependencyCheck(t.contracts.Keys, t.edges) == Pass
    ensures var t := WithAdoption(s, p.planDigest, Adopted(p));
            Inv(t, sequence) && Grows(s, t, last)
  {
    hide DependencyCheck, ParsedPlan, HeldByWorkflow, EverPrepared, Adopted;
    hide GraphInv, AttemptInv, OneLiveAttempt, AbortInv, DependenciesMet, ResolutionInv, WorkflowInv, FrozenGraphs, OnlyAuthorised;
    hide Extends, LifecyclesAdvance, AttemptsEvolve, NonePreparedLate, WorkflowsKept;
    var a := Adopted(p);
    var contracts, lifecycles := AddContracts(s.contracts, a.contracts), AddDrafts(s.lifecycles, a.contracts);
    GrowsReflexive(s, last);
    WellFormedBefore(s.contracts, s.lifecycles, s.edges);
    AddContractsMeaning(s.contracts, a.contracts);
    AddDraftsMeaning(s.lifecycles, a.contracts);
    ChildrenAreIds(p);
    AdoptionUnheld(s, p);
    AdoptionUnprepared(s, p, last);
    AdoptedGraph(s.contracts, s.lifecycles, s.edges, contracts, lifecycles, s.edges + a.edges);
    AttemptInvGrows(s.lifecycles, lifecycles, s.prepared, s.attempts, last, sequence);
    ResolutionInvGrows(s.lifecycles, lifecycles, s.prepared, s.resolutions);
    ContractsGrow(s.contracts, contracts, s.prepared, s.workflows);
    DependenciesMetMore(s.prepared, s.edges, a.edges, s.resolutions);
    FrozenGraphsKept(s.contracts, s.edges, contracts, a.edges, s.workflows);
  }

  lemma WellFormedBefore(contracts: map<TaskId, Contract>, lifecycles: map<TaskId, Lifecycle>, edges: seq<Edge>)
    requires GraphInv(contracts, lifecycles, edges)
    ensures WellFormedGraph(contracts.Keys, edges) && lifecycles.Keys == contracts.Keys
  {
  }

  // Workflows

  lemma WorkflowKeeps(s: State, id: string, w: Workflow, last: int, sequence: int)
    requires Inv(s, last) && last < sequence
    requires id in s.workflows ==> SameAuthority(s.workflows[id], w)
    requires WorkflowFits(s.contracts, id, w.authorization)
    requires HoldsGraph(w) ==> w.authorization.graphDigest.value == TargetGraph(s.contracts, s.edges, w.authorization.targetTaskId)
    ensures var t := s.(workflows := s.workflows[id := w]);
            Inv(t, sequence) && Grows(s, t, last)
  {
    hide TargetGraph;
    hide GraphInv, AttemptInv, OneLiveAttempt, AbortInv, DependenciesMet, ResolutionInv, WorkflowInv, FrozenGraphs, OnlyAuthorised;
    hide Extends, LifecyclesAdvance, AttemptsEvolve, NonePreparedLate, WorkflowsKept;
    Later(s, last, sequence);
    WorkflowChanges(s.contracts, s.edges, s.prepared, s.workflows, id, w);
  }

  lemma StartWorkflowKeeps(s: State, a: Authorization, last: int, sequence: int)
    requires Inv(s, last) && last < sequence
    requires StartWorkflow(s, a, TaskClosure(s, a.targetTaskId)).Ok?
    ensures var t := StartWorkflow(s, a, TaskClosure(s, a.targetTaskId)).value;
            Inv(t, sequence) && Grows(s, t, last)
  {
    hide Inv, Grows, ParentAdmits, AlreadyRunning;
    WorkflowKeeps(s, a.workflowId, Workflow(a, Running, None), last, sequence);
  }

  lemma KnownWorkflow(contracts: map<TaskId, Contract>, edges: seq<Edge>, workflows: map<string, Workflow>, id: string)
    requires WorkflowInv(contracts, workflows) && FrozenGraphs(contracts, edges, workflows) && id in workflows
    ensures WorkflowFits(contracts, id, workflows[id].authorization)
    ensures HoldsGraph(workflows[id]) ==>
              workflows[id].authorization.graphDigest.value == TargetGraph(contracts, edges, workflows[id].authorization.targetTaskId)
  {
  }

  lemma BindPlanKeeps(s: State, id: string, planDigest: Digest, graphDigest: Digest, last: int, sequence: int)
    requires Inv(s, last) && last < sequence
    requires BindPlan(s, id, planDigest, graphDigest, WorkflowClosure(s, id)).Ok?
    ensures var t := BindPlan(s, id, planDigest, graphDigest, WorkflowClosure(s, id)).value;
            Inv(t, sequence) && Grows(s, t, last)
  {
    KnownWorkflow(s.contracts, s.edges, s.workflows, id);
    hide Inv, Grows;
    var w := s.workflows[id];
    var bound := w.authorization.(graphDigest := Some(graphDigest), planDigest := Some(planDigest));
    WorkflowKeeps(s, id, w.(authorization := bound), last, sequence);
  }

  lemma StopWorkflowKeeps(s: State, id: string, state: WorkflowState, reasonCode: string, last: int, sequence: int)
    requires Inv(s, last) && last < sequence && !state.Running?
    requires StopWorkflow(s, id, state, reasonCode).Ok?
    ensures var t := StopWorkflow(s, id, state, reasonCode).value;
            Inv(t, sequence) && Grows(s, t, last)
  {
    hide Grows, TargetGraph, WorkflowFits;
    hide GraphInv, AttemptInv, OneLiveAttempt, AbortInv, DependenciesMet, ResolutionInv, WorkflowInv, FrozenGraphs, OnlyAuthorised;
    hide Extends, LifecyclesAdvance, AttemptsEvolve, NonePreparedLate, WorkflowsKept;
    KnownWorkflow(s.contracts, s.edges, s.workflows, id);
    WorkflowKeeps(s, id, s.workflows[id].(state := state, reasonCode := Some(reasonCode)), last, sequence);
  }

  lemma LifecycleStepKeeps(s: State, id: TaskId, last: int, sequence: int)
    requires Inv(s, last) && last < sequence
    requires ChangeLifecycle(s, id, Activate).Ok?
    ensures var t := ChangeLifecycle(s, id, Activate).value;
            Inv(t, sequence) && Grows(s, t, last)
  {
    hide Inv, Grows;
    ChangeLifecycleKeeps(s, id, Active, last, sequence);
  }

  lemma DependencyStepKeeps(s: State, edge: Edge, last: int, sequence: int)
    requires Inv(s, last) && last < sequence
    requires AddDependency(s, edge, HeldByWorkflow(s, edge.dependentTaskId, false), DependencyCheck(s.contracts.Keys, s.edges + [edge])).Ok?
    ensures var t := s.(edges := s.edges + [edge]);
            Inv(t, sequence) && Grows(s, t, last)
  {
    hide Inv, Grows, HeldByWorkflow, EverPrepared;
    AddDependencyKeeps(s, edge, last, sequence);
  }

  lemma AdoptStepKeeps(s: State, taskId: TaskId, planDigest: Digest, last: int, sequence: int)
    requires Inv(s, last) && last < sequence
    requires AdoptPlan(s, taskId, planDigest).Ok?
    ensures var t := AdoptPlan(s, taskId, planDigest).value;
            Inv(t, sequence) && Grows(s, t, last)
  {
    hide Inv, Grows, HeldByWorkflow, EverPrepared, ParsedPlan, FreshContracts, Adopted, WithAdoption, AlreadyAdopted, DependencyCheck;
    var p := s.plans[planDigest];
    if p.planDigest in s.adopted {
      Later(s, last, sequence);
    } else {
      AdoptKeeps(s, p, last, sequence);
    }
  }

  lemma PlanStepsKeep(s: State, event: Event, last: int, sequence: int)
    requires Inv(s, last) && last < sequence
    requires event.body.PlanProposed? || event.body.PlanRevised? || event.body.PlanRejected?
    requires Step(s, event, sequence).Ok?
    ensures SameButPlans(s, Step(s, event, sequence).value)
  {
    hide Inv, Grows, ParseCheck, HeldByWorkflow, RevisionBase;
  }

  /** Every accepted event keeps the invariant and loses nothing. */
  lemma StepKeeps(s: State, event: Event, last: int, sequence: int)
    requires Inv(s, last) && last < sequence && 1 <= sequence
    requires Step(s, event, sequence).Ok?
    ensures Inv(Step(s, event, sequence).value, sequence)
    ensures Grows(s, Step(s, event, sequence).value, last)
  {
    hide Inv, Grows, SameButPlans;
    hide CreateTask, ChangeLifecycle, AddDependency, Prepare, TransitionAttempt, RecordReceipt, AbortAttempt, RecordResolution;
    hide ProposePlan, RevisePlan, RejectPlan, AdoptPlan, StartWorkflow, BindPlan, StopWorkflow, ParsedPlan;
    match event.body
    case TaskCreated(c) => CreateStepKeeps(s, c, last, sequence);
    case TaskActivated(id) => LifecycleStepKeeps(s, id, last, sequence);
    case DependencyAdded(edge) => AddStep(s, edge); DependencyStepKeeps(s, edge, last, sequence);
    case ExecutionPrepared(p) =>
      PrepareKeeps(s, p, if p.workflowId.Some? then WorkflowClosure(s, p.workflowId.value) else {}, last, sequence);
    case ExecutionTransition(taskId, attemptId, generation, profileDigest, input) =>
      TransitionKeeps(s, AttemptKey(attemptId, generation), taskId, profileDigest, input, last, sequence);
    case ExecutionReceipt(taskId, attemptId, generation, profileDigest, receipt) =>
      ReceiptKeeps(s, event, AttemptKey(attemptId, generation), taskId, profileDigest, receipt, last, sequence);
    case ExecutionAborted(taskId, attemptId, generation, profileDigest, reasonCode) =>
      AbortKeeps(s, AttemptKey(attemptId, generation), taskId, profileDigest, reasonCode, last, sequence);
    case TaskResolved(r) => ResolveKeeps(s, r, last, sequence);
    case PlanProposed(_, _) => PlanStep(s, event, last, sequence);
    case PlanRevised(_, _) => PlanStep(s, event, last, sequence);
    case PlanRejected(_, _, _) => PlanStep(s, event, last, sequence);
    case PlanAdopted(taskId, planDigest) => AdoptStepKeeps(s, taskId, planDigest, last, sequence);
    case WorkflowStarted(a) => StartWorkflowKeeps(s, a, last, sequence);
    case WorkflowPlanBound(workflowId, planDigest, graphDigest) => BindPlanKeeps(s, workflowId, planDigest, graphDigest, last, sequence);
    case WorkflowStopped(workflowId, state, reasonCode) => StopWorkflowKeeps(s, workflowId, state, reasonCode, last, sequence);
  }

  lemma PlanStep(s: State, event: Event, last: int, sequence: int)
    requires Inv(s, last) && last < sequence
    requires event.body.PlanProposed? || event.body.PlanRevised? || event.body.PlanRejected?
    requires Step(s, event, sequence).Ok?
    ensures Inv(Step(s, event, sequence).value, sequence) && Grows(s, Step(s, event, sequence).value, last)
  {
    hide Inv, Grows, Step, SameButPlans;
    PlanStepsKeep(s, event, last, sequence);
    PlanStepKeeps(s, Step(s, event, sequence).value, last, sequence);
  }

  lemma AddStep(s: State, edge: Edge)
    ensures var r := AddDependency(s, edge, HeldByWorkflow(s, edge.dependentTaskId, false), DependencyCheck(s.contracts.Keys, s.edges + [edge]));
            r.Ok? ==> r.value == s.(edges := s.edges + [edge])
  {
    hide HeldByWorkflow, EverPrepared, DependencyCheck;
  }

  lemma CreateStepKeeps(s: State, c: Contract, last: int, sequence: int)
    requires Inv(s, last) && last < sequence && c.taskId != Named("")
    requires CreateTask(s, c).Ok?
    ensures var t := CreateTask(s, c).value;
            Inv(t, sequence) && Grows(s, t, last)
  {
    hide Inv, Grows;
    CreateTaskKeeps(s, c, last, sequence);
  }
}
