/** The task execution projection and its reducer (packages/domain/src/execution.ts). */
module Execution {
  import opened Wrappers
  import opened Identity
  import opened Dependencies
  import opened Lists
  import opened Attempts
  import opened Plans
  import opened Text

  // ----- Records -----

  /** The key of an attempt; written as text it is `attemptId:generation`. */
  datatype AttemptKey = AttemptKey(attemptId: string, generation: int)

  datatype FrozenDependency = FrozenDependency(
    edgeId: EdgeId, edgeType: EdgeType, sourceTaskId: TaskId, winningGeneration: Option<int>)

  datatype Join = Join(taskId: TaskId, taskContractDigest: Digest, dependencies: seq<FrozenDependency>)

  datatype Prepared = Prepared(
    workflowId: Option<string>,
    taskId: TaskId,
    attemptId: string,
    generation: int,
    profile: Profile,
    profileDigest: Digest,
    join: Join,
    binding: Binding,
    authorityTime: int)

  datatype Provenance = Provenance(
    profileDigest: Digest,
    observedHostId: Option<string>,
    observedHostVersion: Option<string>,
    observedProviderId: Option<string>,
    observedModelId: Option<string>)

  /** An attempt receipt; its digest is symbolic, so equal digests are equal receipts. */
  datatype Receipt = Receipt(
    workspaceId: string,
    runId: string,
    taskId: TaskId,
    attemptId: string,
    generation: int,
    attemptContextBindingDigest: Digest,
    contextManifestCoreDigest: string,
    forkPinDigest: string,
    providerId: string,
    providerOperationId: string,
    providerIdempotencyKeyDigest: Digest,
    producerPrincipalId: string,
    producerGrantDigest: string,
    adapterId: string,
    hostId: string,
    hostVersion: string,
    outcome: TerminalState,
    outputDigest: Option<string>,
    provenance: Provenance,
    nonce: string)

  datatype Abort = Abort(reasonCode: string, eventSequence: int)

  datatype OperationKind = Dispatch | Breakdown | Execute

  datatype PlanningSource = PlanningSource(taskId: TaskId, contractDigest: Digest)

  datatype Authorization = Authorization(
    workflowId: string,
    operationKind: OperationKind,
    planningSource: Option<PlanningSource>,
    parentWorkflowId: Option<string>,
    workspaceId: string,
    runId: string,
    targetTaskId: TaskId,
    targetContractDigest: Digest,
    issuerPrincipalId: string,
    issuerGrantDigest: string,
    expiresAt: int,
    executionProfile: Profile,
    plannerProfile: Option<Profile>,
    autoPlan: bool,
    graphDigest: Option<Digest>,
    planDigest: Option<Digest>)

  datatype WorkflowState = Running | WorkflowSucceeded | WorkflowHalted | WorkflowCancelled | WorkflowRevoked

  datatype Workflow = Workflow(authorization: Authorization, state: WorkflowState, reasonCode: Option<string>)

  datatype State = State(
    contracts: map<TaskId, Contract>,
    lifecycles: map<TaskId, Lifecycle>,
    edges: seq<Edge>,
    prepared: map<AttemptKey, Prepared>,
    attempts: map<AttemptKey, Attempt>,
    aborted: map<AttemptKey, Abort>,
    receipts: map<AttemptKey, Receipt>,
    resolutions: map<TaskId, TaskResolution>,
    plans: map<Digest, Plan>,
    plansByPlanner: map<TaskId, Digest>,
    latestPlansByTask: map<TaskId, Digest>,
    planRejectionsByPlanner: map<TaskId, string>,
    adopted: map<Digest, seq<TaskId>>,
    planRejections: map<TaskId, string>,
    workflows: map<string, Workflow>)

  const EMPTY_STATE := State(map[], map[], [], map[], map[], map[], map[], map[], map[], map[], map[], map[], map[], map[], map[])

  // ----- Events -----

  datatype Body =
    | TaskCreated(contract: Contract)
    | TaskActivated(taskId: TaskId)
    | DependencyAdded(edge: Edge)
    | ExecutionPrepared(prepared: Prepared)
    | ExecutionTransition(taskId: TaskId, attemptId: string, generation: int, profileDigest: Digest, input: DispatchInput)
    | ExecutionReceipt(taskId: TaskId, attemptId: string, generation: int, profileDigest: Digest, receipt: Receipt)
    | ExecutionAborted(taskId: TaskId, attemptId: string, generation: int, profileDigest: Digest, reasonCode: string)
    | TaskResolved(resolution: TaskResolution)
    | PlanProposed(plannerTaskId: TaskId, plan: Plan)
    | PlanRevised(basePlanDigest: Digest, plan: Plan)
    | PlanRejected(taskId: TaskId, plannerTaskId: TaskId, reasonCode: string)
    | PlanAdopted(taskId: TaskId, planDigest: Digest)
    | WorkflowStarted(authorization: Authorization)
    | WorkflowPlanBound(workflowId: string, planDigest: Digest, graphDigest: Digest)
    | WorkflowStopped(workflowId: string, state: WorkflowState, reasonCode: string)

  datatype Event = Event(workspaceId: string, runId: string, body: Body)

  predicate BlankId(id: TaskId) {
    id.Named? && IsBlank(id.text)
  }

  predicate ValidAuthorization(a: Authorization) {
    && (a.executionProfile.purpose.Planner? <==> a.operationKind.Breakdown?)
    && (a.plannerProfile.Some? ==> a.plannerProfile.value.purpose.Planner?)
    && (a.graphDigest.None? ==> a.operationKind.Execute? && a.autoPlan && a.plannerProfile.Some? && a.planDigest.None?)
    && (a.operationKind.Breakdown? || a.autoPlan ==> a.planningSource.Some?)
    && (a.autoPlan ==> a.operationKind.Execute?)
    && (a.parentWorkflowId.Some? ==> a.operationKind.Breakdown?)
  }

  predicate ValidPrepared(p: Prepared) {
    && p.profileDigest == ProfileDigest(p.profile)
    && p.join.taskId == p.taskId
    && p.binding.attemptId == p.attemptId && p.binding.generation == p.generation
    && (forall i, j :: 0 <= i < j < |p.join.dependencies| ==>
          p.join.dependencies[i].edgeId != p.join.dependencies[j].edgeId)
  }

  predicate ValidTransition(input: DispatchInput) {
    match input
    case RecordHandle(handle) => !IsBlank(handle)
    case ReconcileFound(handle) => !IsBlank(handle)
    case TerminalReceipt(_, eventSequence, handle) => eventSequence >= 1 && (handle.Some? ==> !IsBlank(handle.value))
    case ManualResolution(_, eventSequence) => eventSequence >= 1
    case _ => true
  }

  /** The checks of `parseTaskExecutionEventV1` that the reducer relies on, for an event whose plan is known to parse or not. */
  function ParseBody(e: Event, planParses: bool): Check {
    match e.body
    case TaskCreated(c) =>
      Need(!BlankId(c.taskId) && !IsBlank(c.title) && !IsBlank(c.instructions)
           && (c.kind.Planner? ==> c.sourceTaskId.Some?), EXECUTION_INVALID)
    case TaskActivated(taskId) => Need(!BlankId(taskId), EXECUTION_INVALID)
    case DependencyAdded(edge) =>
      Need(!BlankId(edge.sourceTaskId) && !BlankId(edge.dependentTaskId), EXECUTION_INVALID)
    case ExecutionPrepared(p) =>
      if p.generation < 1 || BlankId(p.taskId) then Fail(EXECUTION_INVALID)
      else Need(ValidPrepared(p), EXECUTION_PROFILE_MISMATCH)
    case ExecutionTransition(_, _, generation, _, input) =>
      Need(generation >= 1 && ValidTransition(input), EXECUTION_INVALID)
    case ExecutionReceipt(_, _, generation, _, receipt) =>
      Need(generation >= 1 && receipt.providerOperationId != "" && (receipt.outcome.Succeeded? <==> receipt.outputDigest.Some?),
           EXECUTION_INVALID)
    case ExecutionAborted(_, _, generation, _, _) => Need(generation >= 1, EXECUTION_INVALID)
    case PlanProposed(_, _) => Need(planParses, PLAN_INVALID)
    case PlanRevised(_, _) => Need(planParses, PLAN_INVALID)
    case WorkflowStarted(a) =>
      Need(ValidAuthorization(a) && a.workspaceId == e.workspaceId && a.runId == e.runId, EXECUTION_INVALID)
    case WorkflowStopped(_, state, _) => Need(!state.Running?, EXECUTION_INVALID)
    case _ => Pass
  }

  predicate CarriesPlan(b: Body) {
    b.PlanProposed? || b.PlanRevised?
  }

  ghost function ParseCheck(e: Event): Check {
    ParseBody(e, CarriesPlan(e.body) ==> ParsedPlan(e.body.plan))
  }

  // ----- Queries on the state -----

  function RequireTask(s: State, id: TaskId): Check {
    Need(id in s.contracts, TASK_NOT_FOUND)
  }

  predicate EverPrepared(s: State, id: TaskId) {
    exists k :: k in s.prepared && s.prepared[k].taskId == id
  }

  predicate IsDraft(s: State, id: TaskId) {
    id in s.lifecycles && s.lifecycles[id].Draft?
  }

  predicate IsCancelled(s: State, id: TaskId) {
    id in s.lifecycles && s.lifecycles[id] == Resolved(Cancelled)
  }

  ghost function TaskClosure(s: State, target: TaskId): set<TaskId> {
    Closure(s.edges, target)
  }

  /** A running workflow, other than one that may still plan if those are allowed, depends on the task. */
  ghost predicate HeldByWorkflow(s: State, id: TaskId, allowAutoPlan: bool) {
    exists w :: w in s.workflows && Holds(s, s.workflows[w], id, allowAutoPlan)
  }

  ghost predicate Holds(s: State, w: Workflow, id: TaskId, allowAutoPlan: bool) {
    && w.state.Running?
    && (w.authorization.graphDigest.Some? || !allowAutoPlan)
    && id in TaskClosure(s, w.authorization.targetTaskId)
  }

  function MutableCheck(s: State, id: TaskId, held: bool): Check {
    if id !in s.contracts then Fail(TASK_NOT_FOUND)
    else Need(IsDraft(s, id) && !EverPrepared(s, id) && !held, TASK_NOT_DRAFT)
  }

  /** The digest of the graph on a set of tasks: their contracts and the edges among them. */
  function GraphOf(contracts: map<TaskId, Contract>, edges: seq<Edge>, tasks: set<TaskId>): Digest {
    GraphDigest(set id | id in tasks && id in contracts :: contracts[id], set e | e in EdgesWithin(edges, tasks))
  }

  function GraphDigestOf(s: State, tasks: set<TaskId>): Digest {
    GraphOf(s.contracts, s.edges, tasks)
  }

  /** The digest of everything a target depends on. */
  ghost function TargetGraph(contracts: map<TaskId, Contract>, edges: seq<Edge>, target: TaskId): Digest {
    GraphOf(contracts, edges, Closure(edges, target))
  }

  // ----- Launching under a workflow -----

  /** The parent of a breakdown workflow: a running auto-planning execution by the same issuer. */
  predicate ParentAdmits(parent: Workflow, a: Authorization) {
    var p := parent.authorization;
    && parent.state.Running?
    && p.operationKind.Execute? && p.autoPlan
    && p.issuerPrincipalId == a.issuerPrincipalId && p.issuerGrantDigest == a.issuerGrantDigest
    && a.planningSource.Some?
    && p.targetTaskId == a.planningSource.value.taskId
    && p.targetContractDigest == a.planningSource.value.contractDigest
    && p.plannerProfile.Some? && ProfileDigest(p.plannerProfile.value) == ProfileDigest(a.executionProfile)
  }

  predicate HasContract(contracts: map<TaskId, Contract>, id: TaskId, digest: Digest) {
    id in contracts && ContractDigest(contracts[id]) == digest
  }

  /** `assertTaskWorkflowLaunchV1`, given the closure of the workflow's target. */
  function LaunchChecks(s: State, workflowId: string, taskId: TaskId, authorityTime: Option<int>,
                        issuerPrincipalId: string, issuerGrantDigest: string, closure: set<TaskId>): Check {
    if workflowId !in s.workflows || !s.workflows[workflowId].state.Running? then Fail(WORKFLOW_STOPPED)
    else
      var a := s.workflows[workflowId].authorization;
      if authorityTime.None? || authorityTime.value >= a.expiresAt then Fail(WORKFLOW_AUTHORIZATION_EXPIRED)
      else if a.issuerPrincipalId != issuerPrincipalId || a.issuerGrantDigest != issuerGrantDigest then Fail(AUTHORIZATION_DENIED)
      else if IsCancelled(s, a.targetTaskId) || (a.planningSource.Some? && IsCancelled(s, a.planningSource.value.taskId))
        then Fail(TASK_CANCELLED)
      else if a.targetTaskId !in s.contracts then Fail(EXECUTION_INVALID)
      else if !HasContract(s.contracts, a.targetTaskId, a.targetContractDigest) then Fail(PLAN_SOURCE_CHANGED)
      else if a.planningSource.Some? && a.planningSource.value.taskId !in s.contracts then Fail(EXECUTION_INVALID)
      else if a.planningSource.Some? && !HasContract(s.contracts, a.planningSource.value.taskId, a.planningSource.value.contractDigest)
        then Fail(PLAN_SOURCE_CHANGED)
      else if !a.operationKind.Execute? && taskId != a.targetTaskId then Fail(AUTHORIZATION_DENIED)
      else if a.graphDigest != Some(GraphDigestOf(s, closure)) || taskId !in closure then Fail(WORKFLOW_GRAPH_CHANGED)
      else if a.parentWorkflowId.None? then Pass
      else if a.parentWorkflowId.value !in s.workflows || !ParentAdmits(s.workflows[a.parentWorkflowId.value], a)
        then Fail(AUTHORIZATION_DENIED)
      else
        var p := s.workflows[a.parentWorkflowId.value].authorization;
        if authorityTime.value >= p.expiresAt then Fail(WORKFLOW_AUTHORIZATION_EXPIRED)
        else Need(!IsCancelled(s, p.targetTaskId), TASK_CANCELLED)
  }

  /** The closure of the target of a workflow, empty when there is no such workflow. */
  ghost function WorkflowClosure(s: State, workflowId: string): set<TaskId> {
    if workflowId in s.workflows then TaskClosure(s, s.workflows[workflowId].authorization.targetTaskId) else {}
  }

  ghost function LaunchCheck(s: State, workflowId: string, taskId: TaskId, authorityTime: Option<int>,
                             issuerPrincipalId: string, issuerGrantDigest: string): Check {
    LaunchChecks(s, workflowId, taskId, authorityTime, issuerPrincipalId, issuerGrantDigest, WorkflowClosure(s, workflowId))
  }

  // ----- One step for each kind of event -----

  function CreateTask(s: State, c: Contract): Result<State> {
    if c.taskId in s.contracts then Err(EXECUTION_INVALID)
    else
      Ok(s.(contracts := s.contracts[c.taskId := c], lifecycles := s.lifecycles[c.taskId := Draft]))
  }

  function ChangeLifecycle(s: State, id: TaskId, input: LifecycleInput): Result<State> {
    if id !in s.contracts then Err(TASK_NOT_FOUND)
    else
      :- Need(id in s.lifecycles, ILLEGAL_TASK_TRANSITION);
      var l :- ReduceTaskLifecycle(s.lifecycles[id], input);
      Ok(s.(lifecycles := s.lifecycles[id := l]))
  }

  function AddDependency(s: State, edge: Edge, held: bool, acyclic: Check): Result<State> {
    var checked := MutableCheck(s, edge.dependentTaskId, held);
    :- checked;
    :- RequireTask(s, edge.sourceTaskId);
    :- Need(forall e :: e in s.edges ==> e.edgeId != edge.edgeId, EXECUTION_INVALID);
    :- acyclic;
    Ok(s.(edges := s.edges + [edge]))
  }

  /** An attempt that still blocks its task: it has no terminal event (a zero sequence counts as none). */
  predicate Live(a: Attempt) {
    a.terminalEventSequence.None? || a.terminalEventSequence.value == 0
  }

  predicate HasLiveAttempt(s: State, id: TaskId) {
    exists k :: k in s.attempts && Live(s.attempts[k])
      && var j := AttemptKey(s.attempts[k].attemptId, s.attempts[k].generation);
         j in s.prepared && s.prepared[j].taskId == id
  }

  function EdgesInto(edges: seq<Edge>, id: TaskId): seq<Edge> {
    if edges == [] then []
    else
      var front := EdgesInto(edges[..|edges| - 1], id);
      if edges[|edges| - 1].dependentTaskId == id then front + [edges[|edges| - 1]] else front
  }

  function FindFrozen(ds: seq<FrozenDependency>, edgeId: EdgeId): Option<FrozenDependency> {
    if ds == [] then None
    else if ds[0].edgeId == edgeId then Some(ds[0])
    else FindFrozen(ds[1..], edgeId)
  }

  /** The source of an edge is resolved, satisfies it, and is frozen in the join as it is. */
  predicate EdgeReady(s: State, e: Edge, join: Join) {
    && e.sourceTaskId in s.resolutions
    && DependencySatisfied(e, s.resolutions[e.sourceTaskId].resolution)
    && var frozen := FindFrozen(join.dependencies, e.edgeId);
       && frozen.Some?
       && frozen.value.sourceTaskId == e.sourceTaskId
       && frozen.value.edgeType == e.edgeType
       && frozen.value.winningGeneration == s.resolutions[e.sourceTaskId].winningGeneration
  }

  predicate JoinReady(s: State, id: TaskId, join: Join) {
    && |join.dependencies| == |EdgesInto(s.edges, id)|
    && forall e :: e in EdgesInto(s.edges, id) ==> EdgeReady(s, e, join)
  }

  function WorkflowPermits(s: State, p: Prepared, closure: set<TaskId>): Check {
    if p.workflowId.None? then Pass
    else if p.workflowId.value !in s.workflows || !s.workflows[p.workflowId.value].state.Running? then Fail(WORKFLOW_STOPPED)
    else
      var a := s.workflows[p.workflowId.value].authorization;
      var launch := LaunchChecks(s, p.workflowId.value, p.taskId, Some(p.authorityTime),
                                 a.issuerPrincipalId, a.issuerGrantDigest, closure);
      if launch.Fail? then launch
      else Need(ProfileDigest(a.executionProfile) == p.profileDigest, EXECUTION_PROFILE_MISMATCH)
  }

  function NewAttempt(p: Prepared): Attempt {
    Attempt(p.attemptId, p.generation, Planned, BindingDigest(p.binding),
            IdempotencyKeyDigest(p.binding.providerIdempotencyKey), None, None, [])
  }

  function Prepare(s: State, p: Prepared, closure: set<TaskId>): Result<State> {
    if p.taskId !in s.contracts then Err(TASK_NOT_FOUND)
    else
      var k := AttemptKey(p.attemptId, p.generation);
      :- Need(p.taskId in s.lifecycles && s.lifecycles[p.taskId].Active?
              && k !in s.prepared
              && s.contracts[p.taskId].kind == p.profile.purpose
              && !HasLiveAttempt(s, p.taskId), EXECUTION_INVALID);
      :- WorkflowPermits(s, p, closure);
      :- Need(JoinReady(s, p.taskId, p.join), TASK_NOT_READY);
      :- Need(p.join.taskContractDigest == ContractDigest(s.contracts[p.taskId]), EXECUTION_INVALID);
      Ok(s.(prepared := s.prepared[k := p], attempts := s.attempts[k := NewAttempt(p)]))
  }

  /** The event names an attempt that was prepared for its task under its profile. */
  predicate NamesAttempt(s: State, k: AttemptKey, taskId: TaskId, profileDigest: Digest) {
    k in s.prepared && k in s.attempts && s.prepared[k].taskId == taskId && s.prepared[k].profileDigest == profileDigest
  }

  function TransitionAttempt(s: State, k: AttemptKey, taskId: TaskId, profileDigest: Digest, input: DispatchInput): Result<State> {
    if !NamesAttempt(s, k, taskId, profileDigest) then Err(EXECUTION_INVALID)
    else
      :- Need(!input.ReconcileNotFoundIdempotent?, UNKNOWN_OUTCOME);
      :- Need(!input.TerminalReceipt? && !input.ManualResolution?, EXECUTION_INVALID);
      var a :- ReduceDispatch(s.attempts[k], input);
      Ok(s.(attempts := s.attempts[k := a]))
  }

  function AbortAttempt(s: State, k: AttemptKey, taskId: TaskId, profileDigest: Digest, reasonCode: string, sequence: int): Result<State> {
    if !NamesAttempt(s, k, taskId, profileDigest) then Err(EXECUTION_PROFILE_MISMATCH)
    else
      :- Need(s.attempts[k].state.Planned? && s.attempts[k].terminalEventSequence.None?, ABORT_POST_HANDOFF);
      Ok(s.(aborted := s.aborted[k := Abort(reasonCode, sequence)],
            attempts := s.attempts[k := s.attempts[k].(state := Terminal(Cancelled), terminalEventSequence := Some(sequence))]))
  }

  predicate ReceiptMatches(e: Event, p: Prepared, a: Attempt, r: Receipt) {
    && r.taskId == p.taskId && r.attemptId == p.attemptId && r.generation == p.generation
    && r.attemptContextBindingDigest == a.bindingDigest
    && r.contextManifestCoreDigest == p.binding.contextManifestCoreDigest
    && r.forkPinDigest == p.binding.forkPinDigest
    && r.producerPrincipalId == p.binding.allowedProducerPrincipalId
    && r.producerGrantDigest == p.binding.allowedProducerGrantDigest
    && r.adapterId == "horseness-" + p.profile.adapterId + "-v1"
    && r.providerId == p.profile.adapterId + "-native-provider-v1"
    && r.workspaceId == e.workspaceId && r.runId == e.runId
    && r.providerIdempotencyKeyDigest == a.idempotencyKeyDigest
  }

  predicate ProvenanceMatches(p: Prepared, r: Receipt) {
    && r.provenance.profileDigest == p.profileDigest
    && (r.outcome.Succeeded? ==>
          && r.outputDigest.Some?
          && r.provenance.observedModelId == Some(p.profile.modelId)
          && r.provenance.observedProviderId == Some(p.profile.providerId)
          && r.provenance.observedHostId == Some(p.profile.hostId)
          && r.provenance.observedHostVersion == Some(p.profile.hostVersion)
          && r.hostId == p.profile.hostId && r.hostVersion == p.profile.hostVersion)
  }

  function RecordReceipt(s: State, e: Event, k: AttemptKey, taskId: TaskId, profileDigest: Digest, r: Receipt, sequence: int): Result<State> {
    if k in s.aborted || (k in s.attempts && s.attempts[k].state.Planned?) then Err(RECEIPT_PRE_HANDOFF)
    else
      :- Need(NamesAttempt(s, k, taskId, profileDigest) && ReceiptMatches(e, s.prepared[k], s.attempts[k], r)
              && ProvenanceMatches(s.prepared[k], r), EXECUTION_PROFILE_MISMATCH);
      if k in s.receipts then
        if s.receipts[k] != r then Err(RECEIPT_CONFLICT) else Ok(s)
      else
        var a :- ReduceDispatch(s.attempts[k], TerminalReceipt(r.outcome, sequence, Some(r.providerOperationId)));
        Ok(s.(receipts := s.receipts[k := r], attempts := s.attempts[k := a]))
  }

  function AttemptKeysOf(s: State, id: TaskId): set<AttemptKey> {
    set k | k in s.attempts && k in s.prepared && s.prepared[k].taskId == id
  }

  function AttemptsAt(s: State, keys: seq<AttemptKey>): seq<Attempt>
    requires forall k :: k in keys ==> k in s.attempts
  {
    seq(|keys|, i requires 0 <= i < |keys| => s.attempts[keys[i]])
  }

  /** Some listing of a set without repetition. */
  ghost function Enumerate<T>(s: set<T>): (r: seq<T>)
    ensures Distinct(r) && Elements(r) == s && |r| == |s|
  {
    if s == {} then []
    else
      var x :| x in s;
      [x] + Enumerate(s - {x})
  }

  function ResolutionRequest(r: TaskResolution): ResolutionInput {
    ResolutionInput(r.taskId, r.retryPolicyDigest, false, r.resolution.Cancelled?, r.observationCursor)
  }

  function RecordResolution(s: State, r: TaskResolution, attempts: seq<Attempt>): Result<State> {
    if r.taskId !in s.contracts then Err(TASK_NOT_FOUND)
    else
      var expected :- ResolveTask(ResolutionRequest(r), attempts);
      :- Need(expected == Some(r), TASK_RESOLUTION_MISMATCH);
      var next :- ChangeLifecycle(s, r.taskId, Resolve(r.resolution));
      Ok(next.(resolutions := s.resolutions[r.taskId := r]))
  }

  ghost function TaskAttempts(s: State, id: TaskId): seq<Attempt> {
    var keys := Enumerate(AttemptKeysOf(s, id));
    assert forall k :: k in keys ==> k in Elements(keys);
    AttemptsAt(s, keys)
  }

  function ProposePlan(s: State, plannerTaskId: TaskId, p: Plan): Result<State> {
    if p.sourceTaskId !in s.contracts then Err(TASK_NOT_FOUND)
    else
      :- RequireTask(s, plannerTaskId);
      var planner := s.contracts[plannerTaskId];
      :- Need(planner.kind.Planner? && planner.sourceTaskId == Some(s.contracts[p.sourceTaskId].taskId)
              && HasContract(s.contracts, p.sourceTaskId, p.sourceContractDigest)
              && plannerTaskId in s.lifecycles && s.lifecycles[plannerTaskId] == Resolved(Succeeded), PLAN_SOURCE_CHANGED);
      :- Need(plannerTaskId !in s.planRejectionsByPlanner
              && (plannerTaskId in s.plansByPlanner ==> s.plansByPlanner[plannerTaskId] == p.planDigest), PLAN_OUTCOME_CONFLICT);
      if plannerTaskId in s.plansByPlanner then Ok(s)
      else
        :- Need(p.planDigest in s.plans ==> s.plans[p.planDigest] == p, PLAN_OUTCOME_CONFLICT);
        Ok(RecordPlan(s, p).(plansByPlanner := s.plansByPlanner[plannerTaskId := p.planDigest]))
  }

  function RecordPlan(s: State, p: Plan): State {
    s.(plans := if p.planDigest in s.plans then s.plans else s.plans[p.planDigest := p],
       latestPlansByTask := s.latestPlansByTask[p.sourceTaskId := p.planDigest],
       planRejections := s.planRejections - {p.sourceTaskId})
  }

  predicate AlreadyAdopted(s: State, taskId: TaskId) {
    exists d :: d in s.plans && s.plans[d].sourceTaskId == taskId && s.plans[d].planDigest in s.adopted
  }

  predicate PlannedByRunning(s: State, taskId: TaskId) {
    exists w :: w in s.workflows && s.workflows[w].state.Running?
      && s.workflows[w].authorization.planningSource.Some?
      && s.workflows[w].authorization.planningSource.value.taskId == taskId
  }

  /** `assertTaskPlanRevisionV1`. */
  function RevisionBase(s: State, taskId: TaskId, basePlanDigest: Digest, held: bool): Result<Plan> {
    if taskId !in s.contracts then Err(TASK_NOT_FOUND)
    else
      :- Need(basePlanDigest in s.plans && s.plans[basePlanDigest].sourceTaskId == taskId, PLAN_NOT_FOUND);
      :- Need(!AlreadyAdopted(s, taskId), PLAN_ALREADY_ADOPTED);
      :- Need(IsDraft(s, taskId) && !EverPrepared(s, taskId), TASK_NOT_DRAFT);
      :- Need(!PlannedByRunning(s, taskId) && !held, WORKFLOW_ALREADY_RUNNING);
      var base := s.plans[basePlanDigest];
      :- Need(s.contracts[taskId].kind.Work? && HasContract(s.contracts, taskId, base.sourceContractDigest), PLAN_SOURCE_CHANGED);
      :- Need(taskId in s.latestPlansByTask && s.latestPlansByTask[taskId] == basePlanDigest, PLAN_STALE);
      Ok(base)
  }

  function RevisePlan(s: State, basePlanDigest: Digest, p: Plan, held: bool): Result<State> {
    var base :- RevisionBase(s, p.sourceTaskId, basePlanDigest, held);
    :- Need(p.sourceContractDigest == base.sourceContractDigest, PLAN_SOURCE_CHANGED);
    :- Need(p.planDigest in s.plans ==> s.plans[p.planDigest] == p, PLAN_OUTCOME_CONFLICT);
    Ok(RecordPlan(s, p))
  }

  function RejectPlan(s: State, taskId: TaskId, plannerTaskId: TaskId, reasonCode: string): Result<State> {
    if taskId !in s.contracts then Err(TASK_NOT_FOUND)
    else
      :- RequireTask(s, plannerTaskId);
      var planner := s.contracts[plannerTaskId];
      :- Need(planner.kind.Planner? && planner.sourceTaskId == Some(taskId), PLAN_SOURCE_CHANGED);
      :- Need(plannerTaskId !in s.plansByPlanner
              && (plannerTaskId in s.planRejectionsByPlanner ==> s.planRejectionsByPlanner[plannerTaskId] == reasonCode),
              PLAN_OUTCOME_CONFLICT);
      if plannerTaskId in s.planRejectionsByPlanner then Ok(s)
      else
        Ok(s.(planRejectionsByPlanner := s.planRejectionsByPlanner[plannerTaskId := reasonCode],
              planRejections := s.planRejections[taskId := reasonCode]))
  }

  function AddContracts(contracts: map<TaskId, Contract>, cs: seq<Contract>): map<TaskId, Contract> {
    if cs == [] then contracts
    else AddContracts(contracts, cs[..|cs| - 1])[cs[|cs| - 1].taskId := cs[|cs| - 1]]
  }

  function AddDrafts(lifecycles: map<TaskId, Lifecycle>, cs: seq<Contract>): map<TaskId, Lifecycle> {
    if cs == [] then lifecycles
    else AddDrafts(lifecycles, cs[..|cs| - 1])[cs[|cs| - 1].taskId := Draft]
  }

  function Ids(cs: seq<Contract>): set<TaskId> {
    set c | c in cs :: c.taskId
  }

  function IdList(cs: seq<Contract>): seq<TaskId> {
    seq(|cs|, i requires 0 <= i < |cs| => cs[i].taskId)
  }

  /** None of the contracts' ids is taken, and no two of them are the same. */
  predicate FreshContracts(contracts: map<TaskId, Contract>, cs: seq<Contract>) {
    (forall c :: c in cs ==> c.taskId !in contracts) && |Ids(cs)| == |cs|
  }

  function AdoptionTargets(s: State, taskId: TaskId, planDigest: Digest, held: bool): Check {
    if planDigest !in s.plans || s.plans[planDigest].sourceTaskId != taskId then Fail(PLAN_NOT_FOUND)
    else if s.plans[planDigest].planDigest in s.adopted then Pass
    else if AlreadyAdopted(s, taskId) then Fail(PLAN_SOURCE_CHANGED)
    else
      var mutable := MutableCheck(s, taskId, held);
      if mutable.Fail? then mutable
      else Need(HasContract(s.contracts, taskId, s.plans[planDigest].sourceContractDigest), PLAN_SOURCE_CHANGED)
  }

  function WithAdoption(s: State, planDigest: Digest, a: Adoption): State {
    s.(contracts := AddContracts(s.contracts, a.contracts),
       lifecycles := AddDrafts(s.lifecycles, a.contracts),
       edges := s.edges + a.edges,
       adopted := s.adopted[planDigest := IdList(a.contracts)])
  }

  ghost function AdoptPlan(s: State, taskId: TaskId, planDigest: Digest): Result<State> {
    var checked := AdoptionTargets(s, taskId, planDigest, HeldByWorkflow(s, taskId, true));
    :- checked;
    var p := s.plans[planDigest];
    if p.planDigest in s.adopted then Ok(s)
    else
      :- Need(ParsedPlan(p), PLAN_INVALID);
      var a := Adopted(p);
      :- Need(FreshContracts(s.contracts, a.contracts), EXECUTION_INVALID);
      var next := WithAdoption(s, p.planDigest, a);
      :- DependencyCheck(next.contracts.Keys, next.edges);
      Ok(next)
  }

  predicate AlreadyRunning(s: State, target: TaskId) {
    exists w :: w in s.workflows && s.workflows[w].state.Running? && s.workflows[w].authorization.targetTaskId == target
  }

  predicate PlanningSourceFits(s: State, a: Authorization)
    requires a.planningSource.Some? && a.targetTaskId in s.contracts
  {
    var source := a.planningSource.value;
    var target := s.contracts[a.targetTaskId];
    && HasContract(s.contracts, source.taskId, source.contractDigest)
    && (a.operationKind.Breakdown? ==> target.kind.Planner? && target.sourceTaskId == Some(source.taskId))
    && (a.autoPlan ==> a.targetTaskId == source.taskId && a.targetContractDigest == source.contractDigest)
  }

  function StartWorkflow(s: State, a: Authorization, closure: set<TaskId>): Result<State> {
    if a.targetTaskId !in s.contracts then Err(TASK_NOT_FOUND)
    else
      :- Need(s.contracts[a.targetTaskId].kind == a.executionProfile.purpose, EXECUTION_PROFILE_MISMATCH);
      :- Need(!AlreadyRunning(s, a.targetTaskId), WORKFLOW_ALREADY_RUNNING);
      :- Need(a.planningSource.Some? ==> a.planningSource.value.taskId in s.contracts, TASK_NOT_FOUND);
      :- Need(a.planningSource.Some? ==> PlanningSourceFits(s, a), PLAN_SOURCE_CHANGED);
      :- Need(a.parentWorkflowId.Some? ==>
                && a.parentWorkflowId.value in s.workflows
                && ParentAdmits(s.workflows[a.parentWorkflowId.value], a)
                && a.expiresAt <= s.workflows[a.parentWorkflowId.value].authorization.expiresAt, AUTHORIZATION_DENIED);
      :- Need(a.workflowId !in s.workflows && HasContract(s.contracts, a.targetTaskId, a.targetContractDigest)
              && (a.targetTaskId in s.lifecycles ==> !s.lifecycles[a.targetTaskId].Resolved?), EXECUTION_INVALID);
      :- Need(a.graphDigest.Some? ==> a.graphDigest.value == GraphDigestOf(s, closure), WORKFLOW_GRAPH_CHANGED);
      Ok(s.(workflows := s.workflows[a.workflowId := Workflow(a, Running, None)]))
  }

  function BindPlan(s: State, workflowId: string, planDigest: Digest, graphDigest: Digest, closure: set<TaskId>): Result<State> {
    if workflowId !in s.workflows then Err(EXECUTION_INVALID)
    else
      var w := s.workflows[workflowId];
      :- Need(w.state.Running? && w.authorization.autoPlan && w.authorization.graphDigest.None?
              && planDigest in s.adopted
              && planDigest in s.plans && s.plans[planDigest].sourceTaskId == w.authorization.targetTaskId, EXECUTION_INVALID);
      :- Need(graphDigest == GraphDigestOf(s, closure), WORKFLOW_GRAPH_CHANGED);
      var bound := w.authorization.(graphDigest := Some(graphDigest), planDigest := Some(planDigest));
      Ok(s.(workflows := s.workflows[workflowId := w.(authorization := bound)]))
  }

  function StopWorkflow(s: State, workflowId: string, state: WorkflowState, reasonCode: string): Result<State> {
    if workflowId !in s.workflows || !s.workflows[workflowId].state.Running? then Err(WORKFLOW_STOPPED)
    else
      var w := s.workflows[workflowId];
      var target := w.authorization.targetTaskId;
      :- Need(state.WorkflowSucceeded? ==> target in s.lifecycles && s.lifecycles[target] == Resolved(Succeeded),
              TASK_RESOLUTION_MISMATCH);
      Ok(s.(workflows := s.workflows[workflowId := w.(state := state, reasonCode := Some(reasonCode))]))
  }

  /**
   * What one event makes of a state.  Reachability and acyclicity appear here as the mathematical
   * notions; `Reduce` in the module ExecutionReducer computes them with the searches of the source.
   */
  ghost function Step(s: State, event: Event, sequence: int): Result<State> {
    var checked := ParseCheck(event);
    :- checked;
    match event.body
    case TaskCreated(c) => CreateTask(s, c)
    case TaskActivated(id) => ChangeLifecycle(s, id, Activate)
    case DependencyAdded(edge) =>
      AddDependency(s, edge, HeldByWorkflow(s, edge.dependentTaskId, false), DependencyCheck(s.contracts.Keys, s.edges + [edge]))
    case ExecutionPrepared(p) =>
      Prepare(s, p, if p.workflowId.Some? then WorkflowClosure(s, p.workflowId.value) else {})
    case ExecutionTransition(taskId, attemptId, generation, profileDigest, input) =>
      TransitionAttempt(s, AttemptKey(attemptId, generation), taskId, profileDigest, input)
    case ExecutionReceipt(taskId, attemptId, generation, profileDigest, receipt) =>
      RecordReceipt(s, event, AttemptKey(attemptId, generation), taskId, profileDigest, receipt, sequence)
    case ExecutionAborted(taskId, attemptId, generation, profileDigest, reasonCode) =>
      AbortAttempt(s, AttemptKey(attemptId, generation), taskId, profileDigest, reasonCode, sequence)
    case TaskResolved(r) => RecordResolution(s, r, TaskAttempts(s, r.taskId))
    case PlanProposed(plannerTaskId, p) => ProposePlan(s, plannerTaskId, p)
    case PlanRevised(base, p) => RevisePlan(s, base, p, HeldByWorkflow(s, p.sourceTaskId, false))
    case PlanRejected(taskId, plannerTaskId, reasonCode) => RejectPlan(s, taskId, plannerTaskId, reasonCode)
    case PlanAdopted(taskId, planDigest) => AdoptPlan(s, taskId, planDigest)
    case WorkflowStarted(a) => StartWorkflow(s, a, TaskClosure(s, a.targetTaskId))
    case WorkflowPlanBound(workflowId, planDigest, graphDigest) =>
      BindPlan(s, workflowId, planDigest, graphDigest, WorkflowClosure(s, workflowId))
    case WorkflowStopped(workflowId, state, reasonCode) => StopWorkflow(s, workflowId, state, reasonCode)
  }
}
