/** What each accepted execution event changes, and when it is accepted (packages/domain/src/execution.ts). */
module ExecutionEffects {
  import opened Wrappers
  import opened Identity
  import opened Dependencies
  import opened Lists
  import opened Attempts
  import opened Plans
  import opened Execution
  import opened Text

  // ----- Tasks and dependencies -----

  lemma TaskCreatedEffect(s: State, e: Event, sequence: int)
    requires e.body.TaskCreated?
    ensures var c := e.body.contract;
            && (Step(s, e, sequence).Ok? <==>
                  && c.taskId !in s.contracts && !(c.taskId.Named? && IsBlank(c.taskId.text))
                  && !IsBlank(c.title) && !IsBlank(c.instructions) && (c.kind.Planner? ==> c.sourceTaskId.Some?))
            && (Step(s, e, sequence).Ok? ==>
                  Step(s, e, sequence).value == s.(contracts := s.contracts[c.taskId := c], lifecycles := s.lifecycles[c.taskId := Draft]))
  {
    hide IsBlank;
  }

  lemma TaskActivatedEffect(s: State, e: Event, sequence: int)
    requires e.body.TaskActivated?
    ensures var id := e.body.taskId;
            && (Step(s, e, sequence).Ok? <==>
                  !(id.Named? && IsBlank(id.text)) && id in s.contracts && id in s.lifecycles && s.lifecycles[id] == Draft)
            && (Step(s, e, sequence).Ok? ==> Step(s, e, sequence).value == s.(lifecycles := s.lifecycles[id := Active]))
  {
    hide IsBlank;
  }

  /** No attempt of the task was ever prepared, it is still a draft, and no running workflow depends on it. */
  ghost predicate MayChange(s: State, id: TaskId, allowAutoPlan: bool) {
    && id in s.contracts && id in s.lifecycles && s.lifecycles[id] == Draft
    && (forall k :: k in s.prepared ==> s.prepared[k].taskId != id)
    && forall w :: w in s.workflows && s.workflows[w].state.Running? && id in TaskClosure(s, s.workflows[w].authorization.targetTaskId) ==>
         allowAutoPlan && s.workflows[w].authorization.graphDigest.None?
  }

  lemma MutableMeans(s: State, id: TaskId, allowAutoPlan: bool)
    ensures MutableCheck(s, id, HeldByWorkflow(s, id, allowAutoPlan)) == Pass <==> MayChange(s, id, allowAutoPlan)
  {
    hide TaskClosure;
    if HeldByWorkflow(s, id, allowAutoPlan) {
      var w :| w in s.workflows && Holds(s, s.workflows[w], id, allowAutoPlan);
      assert !MayChange(s, id, allowAutoPlan);
    } else {
      assert forall w :: w in s.workflows ==> !Holds(s, s.workflows[w], id, allowAutoPlan);
    }
  }

  lemma DependencyAddedEffect(s: State, e: Event, sequence: int)
    requires e.body.DependencyAdded?
    ensures var edge := e.body.edge;
            && (Step(s, e, sequence).Ok? <==>
                  && !(edge.sourceTaskId.Named? && IsBlank(edge.sourceTaskId.text))
                  && !(edge.dependentTaskId.Named? && IsBlank(edge.dependentTaskId.text))
                  && MayChange(s, edge.dependentTaskId, false) && edge.sourceTaskId in s.contracts
                  && (forall f :: f in s.edges ==> f.edgeId != edge.edgeId)
                  && WellFormedGraph(s.contracts.Keys, s.edges + [edge]) && Acyclic(s.edges + [edge]))
            && (Step(s, e, sequence).Ok? ==> Step(s, e, sequence).value == s.(edges := s.edges + [edge]))
  {
    MutableMeans(s, e.body.edge.dependentTaskId, false);
    hide IsBlank, MutableCheck, HeldByWorkflow, MayChange, WellFormedGraph, Acyclic;
  }

  // ----- Workflows -----

  /** The contract under an id is the one that was authorised. */
  predicate StillContract(s: State, id: TaskId, digest: Digest) {
    id in s.contracts && digest == ContractDigest(s.contracts[id])
  }

  predicate NotCancelled(s: State, id: TaskId) {
    id in s.lifecycles ==> s.lifecycles[id] != Resolved(Cancelled)
  }

  /** A running auto-planning execution by the same issuer, on the planning source of `a`, whose planner profile `a` executes. */
  predicate ParentFor(s: State, a: Authorization) {
    && a.parentWorkflowId.Some? && a.parentWorkflowId.value in s.workflows && a.planningSource.Some?
    && var w := s.workflows[a.parentWorkflowId.value];
       var p := w.authorization;
       && w.state == Running && p.operationKind == Execute && p.autoPlan
       && p.issuerPrincipalId == a.issuerPrincipalId && p.issuerGrantDigest == a.issuerGrantDigest
       && p.targetTaskId == a.planningSource.value.taskId && p.targetContractDigest == a.planningSource.value.contractDigest
       && p.plannerProfile == Some(a.executionProfile)
  }

  /** Everything that must hold for a task to be launched under a workflow at a time, for an issuer. */
  ghost predicate MayLaunch(s: State, w: string, taskId: TaskId, time: Option<int>, principal: string, grant: string) {
    && w in s.workflows && s.workflows[w].state == Running
    && var a := s.workflows[w].authorization;
       && time.Some? && time.value < a.expiresAt
       && a.issuerPrincipalId == principal && a.issuerGrantDigest == grant
       && NotCancelled(s, a.targetTaskId) && StillContract(s, a.targetTaskId, a.targetContractDigest)
       && (a.planningSource.Some? ==>
             NotCancelled(s, a.planningSource.value.taskId) && StillContract(s, a.planningSource.value.taskId, a.planningSource.value.contractDigest))
       && (a.operationKind != Execute ==> taskId == a.targetTaskId)
       && a.graphDigest == Some(TargetGraph(s.contracts, s.edges, a.targetTaskId)) && taskId in TaskClosure(s, a.targetTaskId)
       && (a.parentWorkflowId.Some? ==>
             && ParentFor(s, a)
             && time.value < s.workflows[a.parentWorkflowId.value].authorization.expiresAt
             && NotCancelled(s, s.workflows[a.parentWorkflowId.value].authorization.targetTaskId))
  }

  /** A launch is permitted exactly when all of that holds; an expired authorization stops it with its own code. */
  lemma LaunchPermittedExactly(s: State, w: string, taskId: TaskId, time: Option<int>, principal: string, grant: string)
    ensures LaunchCheck(s, w, taskId, time, principal, grant) == Pass <==> MayLaunch(s, w, taskId, time, principal, grant)
    ensures w in s.workflows && s.workflows[w].state == Running && (time.None? || time.value >= s.workflows[w].authorization.expiresAt)
            ==> LaunchCheck(s, w, taskId, time, principal, grant) == Fail(WORKFLOW_AUTHORIZATION_EXPIRED)
    ensures !(w in s.workflows && s.workflows[w].state == Running) <==>
            LaunchCheck(s, w, taskId, time, principal, grant) == Fail(WORKFLOW_STOPPED)
  {
    hide GraphOf, Closure;
  }

  /** The source of the plans that an authorization relies on: what it must be for the operation. */
  predicate SourceFits(s: State, a: Authorization)
    requires a.planningSource.Some? && a.targetTaskId in s.contracts
  {
    var source, target := a.planningSource.value, s.contracts[a.targetTaskId];
    && StillContract(s, source.taskId, source.contractDigest)
    && (a.operationKind == Breakdown ==> target.kind == Planner && target.sourceTaskId == Some(source.taskId))
    && (a.autoPlan ==> source == PlanningSource(a.targetTaskId, a.targetContractDigest))
  }

  /** The shape of an authorization, whatever the state. */
  predicate WellShaped(e: Event, a: Authorization) {
    && a.workspaceId == e.workspaceId && a.runId == e.runId
    && (a.executionProfile.purpose == Planner <==> a.operationKind == Breakdown)
    && (a.plannerProfile.Some? ==> a.plannerProfile.value.purpose == Planner)
    && (a.graphDigest.None? ==> a.operationKind == Execute && a.autoPlan && a.plannerProfile.Some? && a.planDigest.None?)
    && (a.operationKind == Breakdown || a.autoPlan ==> a.planningSource.Some?)
    && (a.autoPlan ==> a.operationKind == Execute)
    && (a.parentWorkflowId.Some? ==> a.operationKind == Breakdown)
  }

  lemma WorkflowStartedEffect(s: State, e: Event, sequence: int)
    requires e.body.WorkflowStarted?
    ensures var a := e.body.authorization;
            && (Step(s, e, sequence).Ok? <==>
                  && WellShaped(e, a)
                  && StillContract(s, a.targetTaskId, a.targetContractDigest) && s.contracts[a.targetTaskId].kind == a.executionProfile.purpose
                  && (forall w :: w in s.workflows && s.workflows[w].state == Running ==> s.workflows[w].authorization.targetTaskId != a.targetTaskId)
                  && (a.planningSource.Some? ==> SourceFits(s, a))
                  && (a.parentWorkflowId.Some? ==>
                        ParentFor(s, a) && a.expiresAt <= s.workflows[a.parentWorkflowId.value].authorization.expiresAt)
                  && a.workflowId !in s.workflows
                  && (a.targetTaskId in s.lifecycles ==> !s.lifecycles[a.targetTaskId].Resolved?)
                  && (a.graphDigest.Some? ==> a.graphDigest.value == TargetGraph(s.contracts, s.edges, a.targetTaskId)))
            && (Step(s, e, sequence).Ok? ==>
                  Step(s, e, sequence).value == s.(workflows := s.workflows[a.workflowId := Workflow(a, Running, None)]))
  {
    hide GraphOf, Closure;
  }

  lemma WorkflowPlanBoundEffect(s: State, e: Event, sequence: int)
    requires e.body.WorkflowPlanBound?
    ensures var (w, plan, graph) := (e.body.workflowId, e.body.planDigest, e.body.graphDigest);
            && (Step(s, e, sequence).Ok? <==>
                  && w in s.workflows && s.workflows[w].state == Running
                  && s.workflows[w].authorization.autoPlan && s.workflows[w].authorization.graphDigest == None
                  && plan in s.adopted && plan in s.plans && s.plans[plan].sourceTaskId == s.workflows[w].authorization.targetTaskId
                  && graph == TargetGraph(s.contracts, s.edges, s.workflows[w].authorization.targetTaskId))
            && (Step(s, e, sequence).Ok? ==>
                  Step(s, e, sequence).value == s.(workflows := s.workflows[w := s.workflows[w].(
                    authorization := s.workflows[w].authorization.(graphDigest := Some(graph), planDigest := Some(plan)))]))
  {
    hide GraphOf, Closure;
  }

  /** A stop leaves the workflow with exactly the state and the reason of the event, and nothing else changes. */
  lemma WorkflowStoppedEffect(s: State, e: Event, sequence: int)
    requires e.body.WorkflowStopped?
    ensures var (w, state, reason) := (e.body.workflowId, e.body.state, e.body.reasonCode);
            && (Step(s, e, sequence).Ok? <==>
                  && state != Running && w in s.workflows && s.workflows[w].state == Running
                  && (state == WorkflowSucceeded ==>
                        var target := s.workflows[w].authorization.targetTaskId;
                        target in s.lifecycles && s.lifecycles[target] == Resolved(Succeeded)))
            && (Step(s, e, sequence).Ok? ==>
                  Step(s, e, sequence).value
                  == s.(workflows := s.workflows[w := Workflow(s.workflows[w].authorization, state, Some(reason))]))
  {
  }

  // ----- Attempts -----

  /** Every attempt of the task that was recorded so far has ended. */
  predicate NoneOpen(s: State, id: TaskId) {
    forall k :: k in s.attempts ==> EndedFor(s, s.attempts[k], id)
  }

  predicate EndedFor(s: State, a: Attempt, id: TaskId) {
    var j := AttemptKey(a.attemptId, a.generation);
    j in s.prepared && s.prepared[j].taskId == id ==> a.terminalEventSequence.Some? && a.terminalEventSequence.value != 0
  }

  lemma NoneOpenMeans(s: State, id: TaskId)
    ensures HasLiveAttempt(s, id) <==> !NoneOpen(s, id)
  {
    if !NoneOpen(s, id) {
      var k :| k in s.attempts && !EndedFor(s, s.attempts[k], id);
      assert Live(s.attempts[k]);
    }
    if HasLiveAttempt(s, id) {
      var k :| k in s.attempts && Live(s.attempts[k])
        && var j := AttemptKey(s.attempts[k].attemptId, s.attempts[k].generation); j in s.prepared && s.prepared[j].taskId == id;
      assert !EndedFor(s, s.attempts[k], id);
    }
  }

  /** What a join freezes of an edge whose source is resolved. */
  function Frozen(e: Edge, resolutions: map<TaskId, TaskResolution>): FrozenDependency
    requires e.sourceTaskId in resolutions
  {
    FrozenDependency(e.edgeId, e.edgeType, e.sourceTaskId, resolutions[e.sourceTaskId].winningGeneration)
  }

  /** Every edge into the task is satisfied and frozen in the join, and the join has one entry for each. */
  predicate JoinFreezes(s: State, id: TaskId, join: Join) {
    && |join.dependencies| == |EdgesInto(s.edges, id)|
    && forall e :: e in s.edges && e.dependentTaskId == id ==>
         && e.sourceTaskId in s.resolutions && DependencySatisfied(e, s.resolutions[e.sourceTaskId].resolution)
         && Frozen(e, s.resolutions) in join.dependencies
  }

  lemma {:induction false} EdgesIntoAre(edges: seq<Edge>, id: TaskId)
    ensures forall e :: e in EdgesInto(edges, id) <==> e in edges && e.dependentTaskId == id
  {
    if edges != [] {
      var front, last := edges[..|edges| - 1], edges[|edges| - 1];
      EdgesIntoAre(front, id);
      assert edges == front + [last];
    }
  }

  lemma {:induction false} FindFrozenMeans(ds: seq<FrozenDependency>, d: FrozenDependency)
    requires forall i, j :: 0 <= i < j < |ds| ==> ds[i].edgeId != ds[j].edgeId
    ensures FindFrozen(ds, d.edgeId) == Some(d) <==> d in ds
    ensures FindFrozen(ds, d.edgeId).Some? ==> FindFrozen(ds, d.edgeId).value.edgeId == d.edgeId
  {
    if ds != [] {
      FindFrozenMeans(ds[1..], d);
      assert forall x :: x in ds <==> x == ds[0] || x in ds[1..];
    }
  }

  lemma JoinMeans(s: State, id: TaskId, join: Join)
    requires forall i, j :: 0 <= i < j < |join.dependencies| ==> join.dependencies[i].edgeId != join.dependencies[j].edgeId
    ensures JoinReady(s, id, join) <==> JoinFreezes(s, id, join)
  {
    EdgesIntoAre(s.edges, id);
    forall e | e in s.edges && e.sourceTaskId in s.resolutions
      ensures EdgeReady(s, e, join) <==>
              DependencySatisfied(e, s.resolutions[e.sourceTaskId].resolution) && Frozen(e, s.resolutions) in join.dependencies
    {
      FindFrozenMeans(join.dependencies, Frozen(e, s.resolutions));
    }
    hide EdgesInto, FindFrozen, DependencySatisfied;
    assert forall e :: EdgeReady(s, e, join) ==> e.sourceTaskId in s.resolutions;
  }

  /** The facts that a prepared record states of itself. */
  predicate SelfConsistent(p: Prepared) {
    && p.generation >= 1 && !(p.taskId.Named? && IsBlank(p.taskId.text))
    && p.profileDigest == ProfileDigest(p.profile) && p.join.taskId == p.taskId
    && p.binding.attemptId == p.attemptId && p.binding.generation == p.generation
    && forall i, j :: 0 <= i < j < |p.join.dependencies| ==> p.join.dependencies[i].edgeId != p.join.dependencies[j].edgeId
  }

  /** The workflow of a prepared record permits its launch now, for its own issuer and profile. */
  ghost predicate WorkflowLaunches(s: State, p: Prepared)
    requires p.workflowId.Some?
  {
    && p.workflowId.value in s.workflows
    && var a := s.workflows[p.workflowId.value].authorization;
       && MayLaunch(s, p.workflowId.value, p.taskId, Some(p.authorityTime), a.issuerPrincipalId, a.issuerGrantDigest)
       && p.profileDigest == ProfileDigest(a.executionProfile)
  }

  lemma WorkflowPermitsMeans(s: State, p: Prepared)
    ensures WorkflowPermits(s, p, if p.workflowId.Some? then WorkflowClosure(s, p.workflowId.value) else {}) == Pass
       <==> p.workflowId.None? || WorkflowLaunches(s, p)
  {
    if p.workflowId.Some? && p.workflowId.value in s.workflows {
      var a := s.workflows[p.workflowId.value].authorization;
      LaunchPermittedExactly(s, p.workflowId.value, p.taskId, Some(p.authorityTime), a.issuerPrincipalId, a.issuerGrantDigest);
    }
    hide MayLaunch, LaunchChecks, WorkflowClosure;
  }

  /** An attempt as it is planned. */
  function PlannedAttempt(p: Prepared): Attempt {
    Attempt(p.attemptId, p.generation, Planned, BindingDigest(p.binding), IdempotencyKeyDigest(p.binding.providerIdempotencyKey), None, None, [])
  }

  lemma ExecutionPreparedEffect(s: State, e: Event, sequence: int)
    requires e.body.ExecutionPrepared?
    ensures var p := e.body.prepared;
            var k := AttemptKey(p.attemptId, p.generation);
            && (Step(s, e, sequence).Ok? <==>
                  && SelfConsistent(p)
                  && p.taskId in s.contracts && p.taskId in s.lifecycles && s.lifecycles[p.taskId] == Active
                  && k !in s.prepared && s.contracts[p.taskId].kind == p.profile.purpose && NoneOpen(s, p.taskId)
                  && (p.workflowId.Some? ==> WorkflowLaunches(s, p))
                  && JoinFreezes(s, p.taskId, p.join) && p.join.taskContractDigest == ContractDigest(s.contracts[p.taskId]))
            && (Step(s, e, sequence).Ok? ==>
                  Step(s, e, sequence).value == s.(prepared := s.prepared[k := p], attempts := s.attempts[k := PlannedAttempt(p)]))
  {
    var p := e.body.prepared;
    WorkflowPermitsMeans(s, p);
    NoneOpenMeans(s, p.taskId);
    if SelfConsistent(p) { JoinMeans(s, p.taskId, p.join); }
    hide WorkflowPermits, HasLiveAttempt, NoneOpen, JoinReady, JoinFreezes, IsBlank, WorkflowLaunches, WorkflowClosure;
  }

  /** The event names an attempt as it was prepared. */
  predicate Names(s: State, k: AttemptKey, taskId: TaskId, profileDigest: Digest) {
    && k in s.prepared && k in s.attempts
    && s.prepared[k].taskId == taskId && s.prepared[k].profileDigest == profileDigest
  }

  lemma ExecutionTransitionEffect(s: State, e: Event, sequence: int)
    requires e.body.ExecutionTransition?
    ensures var (k, input) := (AttemptKey(e.body.attemptId, e.body.generation), e.body.input);
            && (Step(s, e, sequence).Ok? <==>
                  && e.body.generation >= 1 && (input.RecordHandle? || input.ReconcileFound? ==> !IsBlank(input.handle))
                  && Names(s, k, e.body.taskId, e.body.profileDigest)
                  && !input.ReconcileNotFoundIdempotent? && !input.TerminalReceipt? && !input.ManualResolution?
                  && ReduceDispatch(s.attempts[k], input).Ok?)
            && (Step(s, e, sequence).Ok? ==>
                  Step(s, e, sequence).value == s.(attempts := s.attempts[k := ReduceDispatch(s.attempts[k], input).value]))
  {
    hide ReduceDispatch, IsBlank;
  }

  lemma ExecutionAbortedEffect(s: State, e: Event, sequence: int)
    requires e.body.ExecutionAborted?
    ensures var k := AttemptKey(e.body.attemptId, e.body.generation);
            && (Step(s, e, sequence).Ok? <==>
                  && e.body.generation >= 1 && Names(s, k, e.body.taskId, e.body.profileDigest)
                  && s.attempts[k].state == Planned && s.attempts[k].terminalEventSequence == None)
            && (Step(s, e, sequence).Ok? ==>
                  Step(s, e, sequence).value == s.(
                    aborted := s.aborted[k := Abort(e.body.reasonCode, sequence)],
                    attempts := s.attempts[k := s.attempts[k].(state := Terminal(Cancelled), terminalEventSequence := Some(sequence))]))
  {
  }

  /** The receipt is of this run, this attempt and its binding. */
  predicate ReceiptOf(e: Event, p: Prepared, a: Attempt, r: Receipt) {
    && r.workspaceId == e.workspaceId && r.runId == e.runId
    && r.taskId == p.taskId && r.attemptId == p.attemptId && r.generation == p.generation
    && r.attemptContextBindingDigest == a.bindingDigest && r.providerIdempotencyKeyDigest == a.idempotencyKeyDigest
    && r.contextManifestCoreDigest == p.binding.contextManifestCoreDigest && r.forkPinDigest == p.binding.forkPinDigest
    && r.producerPrincipalId == p.binding.allowedProducerPrincipalId && r.producerGrantDigest == p.binding.allowedProducerGrantDigest
    && r.adapterId == "horseness-" + p.profile.adapterId + "-v1" && r.providerId == p.profile.adapterId + "-native-provider-v1"
    && r.provenance.profileDigest == p.profileDigest
  }

  /** A successful receipt has an output and was observed on exactly the profile that was prepared. */
  predicate SuccessObserved(p: Prepared, r: Receipt) {
    r.outcome == Succeeded ==>
      && r.outputDigest.Some?
      && r.provenance.observedModelId == Some(p.profile.modelId) && r.provenance.observedProviderId == Some(p.profile.providerId)
      && r.provenance.observedHostId == Some(p.profile.hostId) && r.provenance.observedHostVersion == Some(p.profile.hostVersion)
      && r.hostId == p.profile.hostId && r.hostVersion == p.profile.hostVersion
  }

  lemma ExecutionReceiptEffect(s: State, e: Event, sequence: int)
    requires e.body.ExecutionReceipt?
    ensures var (k, r) := (AttemptKey(e.body.attemptId, e.body.generation), e.body.receipt);
            && (Step(s, e, sequence).Ok? <==>
                  && e.body.generation >= 1 && r.providerOperationId != "" && (r.outcome == Succeeded <==> r.outputDigest.Some?)
                  && Names(s, k, e.body.taskId, e.body.profileDigest) && k !in s.aborted && s.attempts[k].state != Planned
                  && ReceiptOf(e, s.prepared[k], s.attempts[k], r) && SuccessObserved(s.prepared[k], r)
                  && if k in s.receipts then s.receipts[k] == r
                     else ReduceDispatch(s.attempts[k], TerminalReceipt(r.outcome, sequence, Some(r.providerOperationId))).Ok?)
            && (Step(s, e, sequence).Ok? ==>
                  Step(s, e, sequence).value
                  == if k in s.receipts then s
                     else s.(receipts := s.receipts[k := r],
                             attempts := s.attempts[k := ReduceDispatch(s.attempts[k], TerminalReceipt(r.outcome, sequence, Some(r.providerOperationId))).value]))
  {
    hide ReduceDispatch;
  }

  lemma LifecycleResolved(s: State, id: TaskId, resolution: TerminalState)
    requires id in s.contracts
    ensures ChangeLifecycle(s, id, Resolve(resolution)).Ok? <==>
            id in s.lifecycles && (s.lifecycles[id] == Active || (s.lifecycles[id] == Draft && resolution == Cancelled))
    ensures ChangeLifecycle(s, id, Resolve(resolution)).Ok? ==>
              ChangeLifecycle(s, id, Resolve(resolution)).value == s.(lifecycles := s.lifecycles[id := Resolved(resolution)])
  {
  }

  lemma ResolutionEffect(s: State, r: TaskResolution, attempts: seq<Attempt>)
    ensures RecordResolution(s, r, attempts).Ok? <==>
            && r.taskId in s.contracts && r.taskId in s.lifecycles
            && (s.lifecycles[r.taskId] == Active || (s.lifecycles[r.taskId] == Draft && r.resolution == Cancelled))
            && ResolveTask(ResolutionInput(r.taskId, r.retryPolicyDigest, false, r.resolution == Cancelled, r.observationCursor), attempts)
            == Ok(Some(r))
    ensures RecordResolution(s, r, attempts).Ok? ==>
              RecordResolution(s, r, attempts).value
              == s.(lifecycles := s.lifecycles[r.taskId := Resolved(r.resolution)], resolutions := s.resolutions[r.taskId := r])
  {
    hide ResolveTask, ChangeLifecycle;
    if r.taskId in s.contracts { LifecycleResolved(s, r.taskId, r.resolution); }
  }

  lemma TaskResolvedEffect(s: State, e: Event, sequence: int)
    requires e.body.TaskResolved?
    ensures var r := e.body.resolution;
            && (Step(s, e, sequence).Ok? <==>
                  && r.taskId in s.contracts && r.taskId in s.lifecycles
                  && (s.lifecycles[r.taskId] == Active || (s.lifecycles[r.taskId] == Draft && r.resolution == Cancelled))
                  && ResolveTask(ResolutionInput(r.taskId, r.retryPolicyDigest, false, r.resolution == Cancelled, r.observationCursor),
                                 TaskAttempts(s, r.taskId)) == Ok(Some(r)))
            && (Step(s, e, sequence).Ok? ==>
                  Step(s, e, sequence).value == s.(lifecycles := s.lifecycles[r.taskId := Resolved(r.resolution)],
                                                   resolutions := s.resolutions[r.taskId := r]))
  {
    hide ResolveTask, TaskAttempts, RecordResolution;
    ResolutionEffect(s, e.body.resolution, TaskAttempts(s, e.body.resolution.taskId));
  }

  // ----- Plans -----

  /** The plan becomes the latest of its task, and a rejection of the task's plans is withdrawn. */
  function WithPlan(s: State, p: Plan): State {
    s.(plans := s.plans[p.planDigest := p],
       latestPlansByTask := s.latestPlansByTask[p.sourceTaskId := p.planDigest],
       planRejections := s.planRejections - {p.sourceTaskId})
  }

  lemma RecordedPlan(s: State, p: Plan)
    requires p.planDigest in s.plans ==> s.plans[p.planDigest] == p
    ensures RecordPlan(s, p) == WithPlan(s, p)
  {
    assert p.planDigest in s.plans ==> s.plans[p.planDigest := p] == s.plans;
  }

  /** When a planner may propose a plan, again or for the first time. */
  predicate MayPropose(s: State, planner: TaskId, p: Plan) {
    && p.sourceTaskId in s.contracts && planner in s.contracts
    && s.contracts[planner].kind == Planner && s.contracts[planner].sourceTaskId == Some(s.contracts[p.sourceTaskId].taskId)
    && p.sourceContractDigest == ContractDigest(s.contracts[p.sourceTaskId])
    && planner in s.lifecycles && s.lifecycles[planner] == Resolved(Succeeded)
    && planner !in s.planRejectionsByPlanner
    && if planner in s.plansByPlanner then s.plansByPlanner[planner] == p.planDigest
       else p.planDigest in s.plans ==> s.plans[p.planDigest] == p
  }

  lemma ProposalEffect(s: State, planner: TaskId, p: Plan)
    ensures ProposePlan(s, planner, p).Ok? <==> MayPropose(s, planner, p)
    ensures ProposePlan(s, planner, p).Ok? ==>
              ProposePlan(s, planner, p).value
              == if planner in s.plansByPlanner then s else WithPlan(s, p).(plansByPlanner := s.plansByPlanner[planner := p.planDigest])
  {
    hide RecordPlan, WithPlan;
    if p.planDigest in s.plans ==> s.plans[p.planDigest] == p {
      RecordedPlan(s, p);
    }
  }

  lemma TaskPlanProposedEffect(s: State, e: Event, sequence: int)
    requires e.body.PlanProposed?
    ensures var (planner, p) := (e.body.plannerTaskId, e.body.plan);
            && (Step(s, e, sequence).Ok? <==> ParsedPlan(p) && MayPropose(s, planner, p))
            && (Step(s, e, sequence).Ok? ==>
                  Step(s, e, sequence).value
                  == if planner in s.plansByPlanner then s
                     else WithPlan(s, p).(plansByPlanner := s.plansByPlanner[planner := p.planDigest]))
  {
    hide ParsedPlan, ProposePlan, MayPropose, WithPlan;
    ProposalEffect(s, e.body.plannerTaskId, e.body.plan);
  }

  /** None of the recorded plans of a task is adopted. */
  predicate NoneAdopted(s: State, id: TaskId) {
    forall d :: d in s.plans && s.plans[d].sourceTaskId == id ==> s.plans[d].planDigest !in s.adopted
  }

  /** No running workflow relies on plans of the task, and none depends on the task. */
  ghost predicate NoWorkflowOn(s: State, id: TaskId) {
    forall w :: w in s.workflows && s.workflows[w].state == Running ==>
      && id !in TaskClosure(s, s.workflows[w].authorization.targetTaskId)
      && (s.workflows[w].authorization.planningSource.Some? ==> s.workflows[w].authorization.planningSource.value.taskId != id)
  }

  lemma NoWorkflowMeans(s: State, id: TaskId)
    ensures NoWorkflowOn(s, id) <==> !PlannedByRunning(s, id) && !HeldByWorkflow(s, id, false)
  {
    hide TaskClosure;
    assert forall w :: w in s.workflows ==> (Holds(s, s.workflows[w], id, false) <==>
      s.workflows[w].state == Running && id in TaskClosure(s, s.workflows[w].authorization.targetTaskId));
  }

  /** When the latest plan of a task may be revised. */
  ghost predicate Revisable(s: State, base: Digest, p: Plan) {
    var id := p.sourceTaskId;
    && id in s.contracts && s.contracts[id].kind == Work
    && base in s.plans && s.plans[base].sourceTaskId == id
    && s.plans[base].sourceContractDigest == ContractDigest(s.contracts[id]) == p.sourceContractDigest
    && id in s.latestPlansByTask && s.latestPlansByTask[id] == base
    && NoneAdopted(s, id) && id in s.lifecycles && s.lifecycles[id] == Draft
    && (forall k :: k in s.prepared ==> s.prepared[k].taskId != id)
    && NoWorkflowOn(s, id)
    && (p.planDigest in s.plans ==> s.plans[p.planDigest] == p)
  }

  lemma RevisionBaseMeans(s: State, id: TaskId, base: Digest, held: bool)
    ensures RevisionBase(s, id, base, held).Ok? <==>
            && id in s.contracts && s.contracts[id].kind == Work
            && base in s.plans && s.plans[base].sourceTaskId == id
            && s.plans[base].sourceContractDigest == ContractDigest(s.contracts[id])
            && id in s.latestPlansByTask && s.latestPlansByTask[id] == base
            && !AlreadyAdopted(s, id) && id in s.lifecycles && s.lifecycles[id] == Draft && !EverPrepared(s, id)
            && !PlannedByRunning(s, id) && !held
    ensures RevisionBase(s, id, base, held).Ok? ==> RevisionBase(s, id, base, held).value == s.plans[base]
  {
    hide AlreadyAdopted, EverPrepared, PlannedByRunning;
  }

  lemma RevisableMeans(s: State, base: Digest, p: Plan)
    ensures Revisable(s, base, p) <==>
            && RevisionBase(s, p.sourceTaskId, base, HeldByWorkflow(s, p.sourceTaskId, false)).Ok?
            && p.sourceContractDigest == s.plans[base].sourceContractDigest
            && (p.planDigest in s.plans ==> s.plans[p.planDigest] == p)
  {
    var id := p.sourceTaskId;
    NoWorkflowMeans(s, id);
    RevisionBaseMeans(s, id, base, HeldByWorkflow(s, id, false));
    assert AlreadyAdopted(s, id) <==> !NoneAdopted(s, id);
    hide RevisionBase, HeldByWorkflow, PlannedByRunning, NoWorkflowOn, NoneAdopted, AlreadyAdopted;
  }

  lemma RevisionEffect(s: State, base: Digest, p: Plan)
    ensures RevisePlan(s, base, p, HeldByWorkflow(s, p.sourceTaskId, false)).Ok? <==> Revisable(s, base, p)
    ensures RevisePlan(s, base, p, HeldByWorkflow(s, p.sourceTaskId, false)).Ok? ==>
              RevisePlan(s, base, p, HeldByWorkflow(s, p.sourceTaskId, false)).value == WithPlan(s, p)
  {
    hide HeldByWorkflow, RecordPlan, WithPlan, RevisionBase, Revisable;
    RevisionBaseMeans(s, p.sourceTaskId, base, HeldByWorkflow(s, p.sourceTaskId, false));
    RevisableMeans(s, base, p);
    if Revisable(s, base, p) {
      RecordedPlan(s, p);
    }
  }

  lemma TaskPlanRevisedEffect(s: State, e: Event, sequence: int)
    requires e.body.PlanRevised?
    ensures Step(s, e, sequence).Ok? <==> ParsedPlan(e.body.plan) && Revisable(s, e.body.basePlanDigest, e.body.plan)
    ensures Step(s, e, sequence).Ok? ==> Step(s, e, sequence).value == WithPlan(s, e.body.plan)
  {
    hide ParsedPlan, RevisePlan, Revisable, HeldByWorkflow, WithPlan;
    RevisionEffect(s, e.body.basePlanDigest, e.body.plan);
  }

  lemma TaskPlanRejectedEffect(s: State, e: Event, sequence: int)
    requires e.body.PlanRejected?
    ensures var (id, planner, reason) := (e.body.taskId, e.body.plannerTaskId, e.body.reasonCode);
            && (Step(s, e, sequence).Ok? <==>
                  && id in s.contracts && planner in s.contracts
                  && s.contracts[planner].kind == Planner && s.contracts[planner].sourceTaskId == Some(id)
                  && planner !in s.plansByPlanner
                  && (planner in s.planRejectionsByPlanner ==> s.planRejectionsByPlanner[planner] == reason))
            && (Step(s, e, sequence).Ok? ==>
                  Step(s, e, sequence).value
                  == if planner in s.planRejectionsByPlanner then s
                     else s.(planRejectionsByPlanner := s.planRejectionsByPlanner[planner := reason],
                             planRejections := s.planRejections[id := reason]))
  {
  }

  /** The ids of some contracts are new, and differ. */
  predicate NewIds(s: State, cs: seq<Contract>) {
    && (forall c :: c in cs ==> c.taskId !in s.contracts)
    && forall i, j :: 0 <= i < j < |cs| ==> cs[i].taskId != cs[j].taskId
  }

  lemma NewIdsMeans(s: State, cs: seq<Contract>)
    ensures FreshContracts(s.contracts, cs) <==> NewIds(s, cs)
  {
    assert Ids(cs) == Elements(IdList(cs)) by {
      forall id | id in Ids(cs) ensures id in Elements(IdList(cs)) {
        var i :| 0 <= i < |cs| && cs[i].taskId == id;
        assert IdList(cs)[i] == id;
      }
    }
    CountDistinct(IdList(cs));
    if NewIds(s, cs) {
      assert Distinct(IdList(cs));
      DistinctCount(IdList(cs));
    }
    if FreshContracts(s.contracts, cs) {
      forall i, j | 0 <= i < j < |cs| ensures cs[i].taskId != cs[j].taskId {
        assert IdList(cs)[i] != IdList(cs)[j];
      }
    }
  }

  /** Contracts in their order, each under its own id, and nothing else. */
  ghost predicate Added<V>(m: map<TaskId, V>, n: map<TaskId, V>, cs: seq<Contract>, value: Contract -> V) {
    && (forall id :: id in n <==> id in m || exists c :: c in cs && c.taskId == id)
    && (forall id :: id in m ==> n[id] == m[id])
    && forall c :: c in cs ==> c.taskId in n && n[c.taskId] == value(c)
  }

  lemma {:induction false} ContractsAre(m: map<TaskId, Contract>, cs: seq<Contract>)
    requires (forall c :: c in cs ==> c.taskId !in m) && forall i, j :: 0 <= i < j < |cs| ==> cs[i].taskId != cs[j].taskId
    ensures Added(m, AddContracts(m, cs), cs, c => c)
  {
    if cs != [] {
      var front, last := cs[..|cs| - 1], cs[|cs| - 1];
      ContractsAre(m, front);
      assert forall c :: c in cs <==> c in front || c == last;
      assert last in cs;
    }
  }

  lemma {:induction false} DraftsAre(m: map<TaskId, Lifecycle>, cs: seq<Contract>)
    requires (forall c :: c in cs ==> c.taskId !in m) && forall i, j :: 0 <= i < j < |cs| ==> cs[i].taskId != cs[j].taskId
    ensures Added(m, AddDrafts(m, cs), cs, c => Draft)
  {
    if cs != [] {
      var front, last := cs[..|cs| - 1], cs[|cs| - 1];
      DraftsAre(m, front);
      assert forall c :: c in cs <==> c in front || c == last;
      assert last in cs;
    }
  }

  /** When a recorded plan that was not adopted yet may be adopted. */
  ghost predicate MayAdopt(s: State, id: TaskId, p: Plan) {
    && NoneAdopted(s, id) && MayChange(s, id, true) && StillContract(s, id, p.sourceContractDigest)
    && ParsedPlan(p) && NewIds(s, Adopted(p).contracts)
    && WellFormedGraph(s.contracts.Keys + Ids(Adopted(p).contracts), s.edges + Adopted(p).edges) && Acyclic(s.edges + Adopted(p).edges)
  }

  lemma TargetsMean(s: State, id: TaskId, d: Digest)
    requires d in s.plans && s.plans[d].sourceTaskId == id && s.plans[d].planDigest !in s.adopted
    ensures AdoptionTargets(s, id, d, HeldByWorkflow(s, id, true)) == Pass
       <==> NoneAdopted(s, id) && MayChange(s, id, true) && StillContract(s, id, s.plans[d].sourceContractDigest)
  {
    MutableMeans(s, id, true);
    assert AlreadyAdopted(s, id) <==> !NoneAdopted(s, id);
    hide MutableCheck, HeldByWorkflow, MayChange, AlreadyAdopted, NoneAdopted;
  }

  lemma {:induction false} GrownKeys(m: map<TaskId, Contract>, cs: seq<Contract>)
    ensures AddContracts(m, cs).Keys == m.Keys + Ids(cs)
  {
    if cs != [] {
      var front, last := cs[..|cs| - 1], cs[|cs| - 1];
      GrownKeys(m, front);
      assert cs == front + [last] && Ids(cs) == Ids(front) + {last.taskId};
    }
  }

  /** The checks of an adoption, one after the other. */
  lemma AdoptionChecks(s: State, id: TaskId, d: Digest)
    requires d in s.plans && s.plans[d].sourceTaskId == id && s.plans[d].planDigest !in s.adopted
    ensures var (p, a) := (s.plans[d], Adopted(s.plans[d]));
            AdoptPlan(s, id, d).Ok? <==>
            && AdoptionTargets(s, id, d, HeldByWorkflow(s, id, true)) == Pass && ParsedPlan(p) && FreshContracts(s.contracts, a.contracts)
            && DependencyCheck(AddContracts(s.contracts, a.contracts).Keys, s.edges + a.edges) == Pass
    ensures AdoptPlan(s, id, d).Ok? ==> AdoptPlan(s, id, d).value == WithAdoption(s, s.plans[d].planDigest, Adopted(s.plans[d]))
  {
    hide AdoptionTargets, HeldByWorkflow, ParsedPlan, Adopted, FreshContracts, AddContracts, AddDrafts, IdList, DependencyCheck, WithAdoption;
    AdoptionFields(s, s.plans[d].planDigest, Adopted(s.plans[d]));
    assert AdoptionTargets(s, id, d, HeldByWorkflow(s, id, true)).Fail? || AdoptionTargets(s, id, d, HeldByWorkflow(s, id, true)) == Pass;
  }

  lemma AdoptionFields(s: State, d: Digest, a: Adoption)
    ensures var t := WithAdoption(s, d, a);
            && t.contracts == AddContracts(s.contracts, a.contracts) && t.lifecycles == AddDrafts(s.lifecycles, a.contracts)
            && t.edges == s.edges + a.edges && t.adopted == s.adopted[d := IdList(a.contracts)]
            && t == s.(contracts := t.contracts, lifecycles := t.lifecycles, edges := t.edges, adopted := t.adopted)
  {
    hide AddContracts, AddDrafts, IdList;
  }

  lemma AdoptionEffect(s: State, id: TaskId, d: Digest)
    requires d in s.plans && s.plans[d].sourceTaskId == id && s.plans[d].planDigest !in s.adopted
    ensures AdoptPlan(s, id, d).Ok? <==> MayAdopt(s, id, s.plans[d])
    ensures AdoptPlan(s, id, d).Ok? ==> AdoptPlan(s, id, d).value == WithAdoption(s, s.plans[d].planDigest, Adopted(s.plans[d]))
  {
    hide AdoptPlan, WithAdoption, AdoptionTargets, HeldByWorkflow, MayChange, NoneAdopted, StillContract, ParsedPlan, Adopted;
    hide FreshContracts, NewIds, AddContracts, WellFormedGraph, Acyclic, Ids;
    AdoptionChecks(s, id, d);
    TargetsMean(s, id, d);
    NewIdsMeans(s, Adopted(s.plans[d]).contracts);
    GrownKeys(s.contracts, Adopted(s.plans[d]).contracts);
  }

  /** What an adoption leaves: the derived contracts as drafts, the derived edges, and the ids of the children in their order. */
  ghost predicate AdoptedInto(s: State, t: State, p: Plan) {
    var a := Adopted(p);
    && (s.lifecycles.Keys == s.contracts.Keys ==>
          Added(s.contracts, t.contracts, a.contracts, c => c) && Added(s.lifecycles, t.lifecycles, a.contracts, c => Draft))
    && p.planDigest in t.adopted && |t.adopted[p.planDigest]| == |a.contracts|
    && (forall i :: 0 <= i < |a.contracts| ==> t.adopted[p.planDigest][i] == a.contracts[i].taskId)
    && t == s.(contracts := t.contracts, lifecycles := t.lifecycles, edges := s.edges + a.edges,
               adopted := s.adopted[p.planDigest := t.adopted[p.planDigest]])
  }

  lemma AdoptionLeaves(s: State, id: TaskId, p: Plan)
    requires MayAdopt(s, id, p)
    ensures AdoptedInto(s, WithAdoption(s, p.planDigest, Adopted(p)), p)
  {
    hide MayAdopt, Adopted, Added, AddContracts, AddDrafts, WithAdoption, NewIds;
    var cs := Adopted(p).contracts;
    NewOnes(s, id, p);
    AdoptionFields(s, p.planDigest, Adopted(p));
    if s.lifecycles.Keys == s.contracts.Keys {
      ChildrenAdded(s, cs);
    }
  }

  lemma NewOnes(s: State, id: TaskId, p: Plan)
    requires MayAdopt(s, id, p)
    ensures NewIds(s, Adopted(p).contracts)
  {
    hide NewIds;
  }

  lemma ChildrenAdded(s: State, cs: seq<Contract>)
    requires NewIds(s, cs) && s.lifecycles.Keys == s.contracts.Keys
    ensures Added(s.contracts, AddContracts(s.contracts, cs), cs, c => c) && Added(s.lifecycles, AddDrafts(s.lifecycles, cs), cs, c => Draft)
  {
    hide Added, AddContracts, AddDrafts;
    ContractsAre(s.contracts, cs);
    DraftsAre(s.lifecycles, cs);
  }

  lemma AdoptedBefore(s: State, id: TaskId, d: Digest)
    requires !(d in s.plans && s.plans[d].sourceTaskId == id && s.plans[d].planDigest !in s.adopted)
    ensures AdoptPlan(s, id, d).Ok? <==> d in s.plans && s.plans[d].sourceTaskId == id
    ensures AdoptPlan(s, id, d).Ok? ==> AdoptPlan(s, id, d).value == s
  {
    hide HeldByWorkflow, ParsedPlan, Adopted;
  }

  lemma StepAdopts(s: State, e: Event, sequence: int)
    requires e.body.PlanAdopted?
    ensures Step(s, e, sequence) == AdoptPlan(s, e.body.taskId, e.body.planDigest)
  {
    hide AdoptPlan;
  }

  lemma TaskPlanAdoptedEffect(s: State, e: Event, sequence: int)
    requires e.body.PlanAdopted?
    ensures var (id, d) := (e.body.taskId, e.body.planDigest);
            && (Step(s, e, sequence).Ok? <==>
                  && d in s.plans && s.plans[d].sourceTaskId == id
                  && (s.plans[d].planDigest in s.adopted || MayAdopt(s, id, s.plans[d])))
            && (Step(s, e, sequence).Ok? ==>
                  if s.plans[d].planDigest in s.adopted then Step(s, e, sequence).value == s
                  else AdoptedInto(s, Step(s, e, sequence).value, s.plans[d]))
  {
    var (id, d) := (e.body.taskId, e.body.planDigest);
    hide Step, AdoptPlan, MayAdopt, AdoptedInto, WithAdoption, Adopted;
    StepAdopts(s, e, sequence);
    if d in s.plans && s.plans[d].sourceTaskId == id && s.plans[d].planDigest !in s.adopted {
      AdoptionEffect(s, id, d);
      if MayAdopt(s, id, s.plans[d]) { AdoptionLeaves(s, id, s.plans[d]); }
    } else {
      AdoptedBefore(s, id, d);
    }
  }
}
