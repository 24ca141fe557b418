/** Plans over whole runs of the task execution reducer (packages/domain/src/execution.ts). */
module ExecutionPlans {
  import opened Wrappers
  import opened Identity
  import opened Dependencies
  import opened Lists
  import opened Attempts
  import opened Plans
  import opened Execution
  import opened ExecutionSafety
  import opened ExecutionRuns

  /** Every plan is recorded under its own digest, and parses. */
  ghost predicate PlansNamed(plans: map<Digest, Plan>) {
    forall d :: d in plans ==> plans[d].planDigest == d && ParsedPlan(plans[d])
  }

  /** A planner's outcome is a recorded plan or a rejection, never both. */
  predicate OneOutcome(plans: map<Digest, Plan>, byPlanner: map<TaskId, Digest>, rejections: map<TaskId, string>) {
    forall t :: t in byPlanner ==> byPlanner[t] in plans && t !in rejections
  }

  /** The latest plan of a task is a recorded plan for it. */
  predicate LatestKnown(plans: map<Digest, Plan>, latest: map<TaskId, Digest>) {
    forall t :: t in latest ==> PlanOf(plans, latest[t], t)
  }

  predicate PlanOf(plans: map<Digest, Plan>, d: Digest, source: TaskId) {
    d in plans && plans[d].sourceTaskId == source
  }

  /** The children and the edges of a plan are in the graph. */
  predicate PlanPresent(contracts: map<TaskId, Contract>, edges: seq<Edge>, p: Plan) {
    && (forall c :: c in Adopted(p).contracts ==> c.taskId in contracts && contracts[c.taskId] == c)
    && (forall e :: e in Adopted(p).edges ==> e in edges)
  }

  predicate AdoptedPresent(contracts: map<TaskId, Contract>, edges: seq<Edge>, plans: map<Digest, Plan>, adopted: map<Digest, seq<TaskId>>) {
    forall d :: d in adopted ==> d in plans && PlanPresent(contracts, edges, plans[d])
  }

  /** No task has two adopted plans. */
  ghost predicate OneAdoption(plans: map<Digest, Plan>, adopted: map<Digest, seq<TaskId>>) {
    forall d, e, source :: d in adopted && e in adopted && PlanOf(plans, d, source) && PlanOf(plans, e, source) ==> d == e
  }

  ghost predicate PlanInv(s: State) {
    && PlansNamed(s.plans)
    && OneOutcome(s.plans, s.plansByPlanner, s.planRejectionsByPlanner)
    && LatestKnown(s.plans, s.latestPlansByTask)
    && AdoptedPresent(s.contracts, s.edges, s.plans, s.adopted)
    && OneAdoption(s.plans, s.adopted)
  }

  /** Plans, their outcomes and their adoptions are only added. */
  ghost predicate PlansGrow(s: State, t: State) {
    && Extends(s.plans, t.plans) && Extends(s.plansByPlanner, t.plansByPlanner)
    && Extends(s.planRejectionsByPlanner, t.planRejectionsByPlanner) && Extends(s.adopted, t.adopted)
  }

  predicate SamePlans(s: State, t: State) {
    && t.plans == s.plans && t.plansByPlanner == s.plansByPlanner && t.latestPlansByTask == s.latestPlansByTask
    && t.planRejectionsByPlanner == s.planRejectionsByPlanner && t.adopted == s.adopted
  }

  /** What an event that is not about attempts leaves alone. */
  predicate SameAttempts(s: State, t: State) {
    t.prepared == s.prepared && t.attempts == s.attempts && t.receipts == s.receipts
  }

  /** What an event that neither creates, activates nor resolves a task leaves alone. */
  predicate SameOutcomes(s: State, t: State) {
    t.lifecycles == s.lifecycles && t.resolutions == s.resolutions
  }

  lemma SamePlansKeep(s: State, t: State)
    requires PlanInv(s) && SamePlans(s, t) && Extends(s.contracts, t.contracts) && s.edges <= t.edges
    ensures PlanInv(t) && PlansGrow(s, t)
  {
    hide ParsedPlan, Adopted;
    forall d | d in t.adopted ensures PlanPresent(t.contracts, t.edges, t.plans[d]) {
      assert PlanPresent(s.contracts, s.edges, s.plans[d]);
    }
  }

  // ----- One event -----

  predicate AboutPlans(b: Body) {
    b.PlanProposed? || b.PlanRevised? || b.PlanRejected? || b.PlanAdopted?
  }

  lemma CreateTaskLeaves(s: State, c: Contract)
    requires CreateTask(s, c).Ok?
    ensures SamePlans(s, CreateTask(s, c).value)
    ensures SameAttempts(s, CreateTask(s, c).value)
  {
  }

  lemma ChangeLifecycleLeaves(s: State, id: TaskId, input: LifecycleInput)
    requires ChangeLifecycle(s, id, input).Ok?
    ensures SamePlans(s, ChangeLifecycle(s, id, input).value)
    ensures SameAttempts(s, ChangeLifecycle(s, id, input).value)
  {
    hide ReduceTaskLifecycle;
  }

  lemma AddDependencyLeaves(s: State, edge: Edge, held: bool, acyclic: Check)
    requires AddDependency(s, edge, held, acyclic).Ok?
    ensures SamePlans(s, AddDependency(s, edge, held, acyclic).value)
    ensures SameAttempts(s, AddDependency(s, edge, held, acyclic).value)
    ensures SameOutcomes(s, AddDependency(s, edge, held, acyclic).value)
  {
    hide MutableCheck;
  }

  lemma PrepareLeaves(s: State, p: Prepared, closure: set<TaskId>)
    requires Prepare(s, p, closure).Ok?
    ensures SamePlans(s, Prepare(s, p, closure).value)
    ensures SameOutcomes(s, Prepare(s, p, closure).value)
  {
    hide WorkflowPermits, JoinReady, HasLiveAttempt, NewAttempt;
  }

  lemma TransitionLeaves(s: State, k: AttemptKey, id: TaskId, digest: Digest, input: DispatchInput)
    requires TransitionAttempt(s, k, id, digest, input).Ok?
    ensures SamePlans(s, TransitionAttempt(s, k, id, digest, input).value)
    ensures SameOutcomes(s, TransitionAttempt(s, k, id, digest, input).value)
  {
    hide ReduceDispatch, NamesAttempt;
    assert NamesAttempt(s, k, id, digest) ==> k in s.attempts by { NamedAttempt(s, k, id, digest); }
  }

  lemma NamedAttempt(s: State, k: AttemptKey, id: TaskId, digest: Digest)
    ensures NamesAttempt(s, k, id, digest) ==> k in s.attempts && k in s.prepared
  {
  }

  lemma ReceiptLeaves(s: State, e: Event, k: AttemptKey, id: TaskId, digest: Digest, r: Receipt, sequence: int)
    requires RecordReceipt(s, e, k, id, digest, r, sequence).Ok?
    ensures SamePlans(s, RecordReceipt(s, e, k, id, digest, r, sequence).value)
    ensures SameOutcomes(s, RecordReceipt(s, e, k, id, digest, r, sequence).value)
  {
    hide ReduceDispatch, ReceiptMatches, ProvenanceMatches;
  }

  lemma AbortLeaves(s: State, k: AttemptKey, id: TaskId, digest: Digest, reason: string, sequence: int)
    requires AbortAttempt(s, k, id, digest, reason, sequence).Ok?
    ensures SamePlans(s, AbortAttempt(s, k, id, digest, reason, sequence).value)
    ensures SameOutcomes(s, AbortAttempt(s, k, id, digest, reason, sequence).value)
  {
  }

  lemma ResolutionLeaves(s: State, r: TaskResolution, attempts: seq<Attempt>)
    requires RecordResolution(s, r, attempts).Ok?
    ensures SamePlans(s, RecordResolution(s, r, attempts).value)
    ensures SameAttempts(s, RecordResolution(s, r, attempts).value)
  {
    hide ResolveTask, ChangeLifecycle, ResolutionRequest;
    ChangeLifecycleLeaves(s, r.taskId, Resolve(r.resolution));
  }

  lemma StartLeaves(s: State, a: Authorization, closure: set<TaskId>)
    requires StartWorkflow(s, a, closure).Ok?
    ensures SamePlans(s, StartWorkflow(s, a, closure).value)
    ensures SameAttempts(s, StartWorkflow(s, a, closure).value)
    ensures SameOutcomes(s, StartWorkflow(s, a, closure).value)
  {
    hide GraphDigestOf, PlanningSourceFits, ParentAdmits, AlreadyRunning, HasContract;
  }

  lemma BindLeaves(s: State, id: string, plan: Digest, graph: Digest, closure: set<TaskId>)
    requires BindPlan(s, id, plan, graph, closure).Ok?
    ensures SamePlans(s, BindPlan(s, id, plan, graph, closure).value)
    ensures SameAttempts(s, BindPlan(s, id, plan, graph, closure).value)
    ensures SameOutcomes(s, BindPlan(s, id, plan, graph, closure).value)
  {
    hide GraphDigestOf;
  }

  lemma StopLeaves(s: State, id: string, state: WorkflowState, reason: string)
    requires StopWorkflow(s, id, state, reason).Ok?
    ensures SamePlans(s, StopWorkflow(s, id, state, reason).value)
    ensures SameAttempts(s, StopWorkflow(s, id, state, reason).value)
    ensures SameOutcomes(s, StopWorkflow(s, id, state, reason).value)
  {
  }

  lemma OtherSteps(s: State, event: Event, sequence: int)
    requires Step(s, event, sequence).Ok? && !AboutPlans(event.body)
    ensures SamePlans(s, Step(s, event, sequence).value)
  {
    hide SamePlans, ParseCheck, CreateTask, ChangeLifecycle, AddDependency, Prepare, TransitionAttempt, RecordReceipt, AbortAttempt;
    hide RecordResolution, StartWorkflow, BindPlan, StopWorkflow, ProposePlan, RevisePlan, RejectPlan, AdoptPlan, TaskAttempts, DependencyCheck;
    match event.body
    case TaskCreated(c) => CreateTaskLeaves(s, c);
    case TaskActivated(id) => ChangeLifecycleLeaves(s, id, Activate);
    case DependencyAdded(edge) =>
      AddDependencyLeaves(s, edge, HeldByWorkflow(s, edge.dependentTaskId, false), DependencyCheck(s.contracts.Keys, s.edges + [edge]));
    case ExecutionPrepared(p) => PrepareLeaves(s, p, if p.workflowId.Some? then WorkflowClosure(s, p.workflowId.value) else {});
    case ExecutionTransition(id, attempt, generation, digest, input) =>
      TransitionLeaves(s, AttemptKey(attempt, generation), id, digest, input);
    case ExecutionReceipt(id, attempt, generation, digest, receipt) =>
      ReceiptLeaves(s, event, AttemptKey(attempt, generation), id, digest, receipt, sequence);
    case ExecutionAborted(id, attempt, generation, digest, reason) =>
      AbortLeaves(s, AttemptKey(attempt, generation), id, digest, reason, sequence);
    case TaskResolved(r) => ResolutionLeaves(s, r, TaskAttempts(s, r.taskId));
    case WorkflowStarted(a) => StartLeaves(s, a, TaskClosure(s, a.targetTaskId));
    case WorkflowPlanBound(id, plan, graph) => BindLeaves(s, id, plan, graph, WorkflowClosure(s, id));
    case WorkflowStopped(id, state, reason) => StopLeaves(s, id, state, reason);
    case _ =>
  }

  /** One more plan changes nothing about those that were there. */
  lemma PlansExtended(s: State, more: map<Digest, Plan>)
    requires PlanInv(s) && Extends(s.plans, more)
    ensures OneOutcome(more, s.plansByPlanner, s.planRejectionsByPlanner)
    ensures LatestKnown(more, s.latestPlansByTask)
    ensures AdoptedPresent(s.contracts, s.edges, more, s.adopted) && OneAdoption(more, s.adopted)
  {
    hide PlanPresent, ParsedPlan;
    forall d, e, source | d in s.adopted && e in s.adopted && PlanOf(more, d, source) && PlanOf(more, e, source) ensures d == e {
      assert PlanOf(s.plans, d, source) && PlanOf(s.plans, e, source);
    }
  }

  lemma NamedPlan(plans: map<Digest, Plan>, p: Plan)
    requires PlansNamed(plans) && ParsedPlan(p) && (p.planDigest in plans ==> plans[p.planDigest] == p)
    ensures PlansNamed(plans[p.planDigest := p]) && Extends(plans, plans[p.planDigest := p])
  {
    hide ParsedPlan;
  }

  lemma LatestRecorded(plans: map<Digest, Plan>, latest: map<TaskId, Digest>, p: Plan)
    requires LatestKnown(plans, latest) && p.planDigest in plans && plans[p.planDigest] == p
    ensures LatestKnown(plans, latest[p.sourceTaskId := p.planDigest])
  {
  }

  lemma SameMap<K, V>(m: map<K, V>)
    ensures Extends(m, m)
  {
  }

  lemma RecordPlanKeeps(s: State, p: Plan)
    requires PlanInv(s) && ParsedPlan(p) && (p.planDigest in s.plans ==> s.plans[p.planDigest] == p)
    ensures PlanInv(RecordPlan(s, p)) && PlansGrow(s, RecordPlan(s, p))
  {
    var more := s.plans[p.planDigest := p];
    assert more == if p.planDigest in s.plans then s.plans else more;
    NamedPlan(s.plans, p);
    hide ParsedPlan, Extends, PlansNamed, AdoptedPresent, OneAdoption, OneOutcome, LatestKnown;
    PlansExtended(s, more);
    LatestRecorded(more, s.latestPlansByTask, p);
    SameMap(s.plansByPlanner);
    SameMap(s.planRejectionsByPlanner);
    SameMap(s.adopted);
  }

  lemma ProposeKeeps(s: State, planner: TaskId, p: Plan)
    requires PlanInv(s) && ParsedPlan(p) && ProposePlan(s, planner, p).Ok?
    ensures PlanInv(ProposePlan(s, planner, p).value) && PlansGrow(s, ProposePlan(s, planner, p).value)
  {
    hide ParsedPlan, PlanPresent, HasContract;
    if planner !in s.plansByPlanner {
      RecordPlanKeeps(s, p);
      OutcomeRecorded(RecordPlan(s, p), planner, p.planDigest);
    }
  }

  lemma OutcomeRecorded(s: State, planner: TaskId, d: Digest)
    requires PlanInv(s) && d in s.plans && planner !in s.plansByPlanner && planner !in s.planRejectionsByPlanner
    ensures var t := s.(plansByPlanner := s.plansByPlanner[planner := d]); PlanInv(t) && PlansGrow(s, t)
  {
    hide PlansNamed, AdoptedPresent, OneAdoption, LatestKnown;
  }

  lemma ReviseKeeps(s: State, base: Digest, p: Plan, held: bool)
    requires PlanInv(s) && ParsedPlan(p) && RevisePlan(s, base, p, held).Ok?
    ensures PlanInv(RevisePlan(s, base, p, held).value) && PlansGrow(s, RevisePlan(s, base, p, held).value)
  {
    hide ParsedPlan, PlanPresent, RevisionBase, PlanInv, PlansGrow, RecordPlan;
    RecordPlanKeeps(s, p);
  }

  lemma RejectKeeps(s: State, id: TaskId, planner: TaskId, reason: string)
    requires PlanInv(s) && RejectPlan(s, id, planner, reason).Ok?
    ensures PlanInv(RejectPlan(s, id, planner, reason).value) && PlansGrow(s, RejectPlan(s, id, planner, reason).value)
  {
    hide PlansNamed, AdoptedPresent, OneAdoption, LatestKnown;
  }

  lemma {:induction false} DistinctAdded(contracts: map<TaskId, Contract>, cs: seq<Contract>)
    requires Distinct(IdList(cs))
    ensures forall i :: 0 <= i < |cs| ==> cs[i].taskId in AddContracts(contracts, cs) && AddContracts(contracts, cs)[cs[i].taskId] == cs[i]
  {
    if cs != [] {
      var n := |cs| - 1;
      var front := cs[..n];
      assert IdList(front) == IdList(cs)[..n];
      DistinctAdded(contracts, front);
      forall i | 0 <= i < n ensures cs[i].taskId != cs[n].taskId && cs[i] == front[i] {
        assert IdList(cs)[i] != IdList(cs)[n];
      }
    }
  }

  /** Fresh contracts are all there once they are added. */
  lemma ContractsAdded(contracts: map<TaskId, Contract>, cs: seq<Contract>)
    requires FreshContracts(contracts, cs)
    ensures var grown := AddContracts(contracts, cs);
            Extends(contracts, grown) && forall c :: c in cs ==> c.taskId in grown && grown[c.taskId] == c
  {
    AddContractsMeaning(contracts, cs);
    assert Ids(cs) == Elements(IdList(cs)) by {
      forall id | id in Ids(cs) ensures id in Elements(IdList(cs)) {
        var i :| 0 <= i < |cs| && cs[i].taskId == id;
        assert IdList(cs)[i] == id;
      }
    }
    CountDistinct(IdList(cs));
    DistinctAdded(contracts, cs);
    hide AddContracts;
  }

  lemma NotAdopted(s: State, p: Plan)
    requires PlanInv(s) && !AlreadyAdopted(s, p.sourceTaskId)
    ensures forall d :: d in s.adopted ==> !PlanOf(s.plans, d, p.sourceTaskId)
  {
    hide ParsedPlan, PlanPresent;
    forall d | d in s.adopted ensures !PlanOf(s.plans, d, p.sourceTaskId) {
      assert d in s.plans && s.plans[d].planDigest == d;
    }
  }

  lemma PresentAfter(contracts: map<TaskId, Contract>, edges: seq<Edge>, plans: map<Digest, Plan>, adopted: map<Digest, seq<TaskId>>,
                     grown: map<TaskId, Contract>, more: seq<Edge>, d: Digest, ids: seq<TaskId>)
    requires AdoptedPresent(contracts, edges, plans, adopted) && Extends(contracts, grown)
    requires d in plans && PlanPresent(grown, edges + more, plans[d])
    ensures AdoptedPresent(grown, edges + more, plans, adopted[d := ids])
  {
    hide Adopted;
    forall e | e in adopted ensures e in plans && PlanPresent(grown, edges + more, plans[e]) {
      assert PlanPresent(contracts, edges, plans[e]);
    }
  }

  lemma OneMoreAdoption(plans: map<Digest, Plan>, adopted: map<Digest, seq<TaskId>>, d: Digest, ids: seq<TaskId>)
    requires OneAdoption(plans, adopted) && d in plans
    requires forall e :: e in adopted ==> !PlanOf(plans, e, plans[d].sourceTaskId)
    ensures OneAdoption(plans, adopted[d := ids])
  {
  }

  lemma NowPresent(contracts: map<TaskId, Contract>, edges: seq<Edge>, p: Plan)
    requires FreshContracts(contracts, Adopted(p).contracts)
    ensures Extends(contracts, AddContracts(contracts, Adopted(p).contracts))
    ensures PlanPresent(AddContracts(contracts, Adopted(p).contracts), edges + Adopted(p).edges, p)
  {
    ContractsAdded(contracts, Adopted(p).contracts);
    hide Adopted, AddContracts, FreshContracts;
  }

  lemma Adopts(s: State, p: Plan)
    requires PlanInv(s) && p.planDigest in s.plans && s.plans[p.planDigest] == p && p.planDigest !in s.adopted
    requires FreshContracts(s.contracts, Adopted(p).contracts) && !AlreadyAdopted(s, p.sourceTaskId)
    ensures PlanInv(WithAdoption(s, p.planDigest, Adopted(p))) && PlansGrow(s, WithAdoption(s, p.planDigest, Adopted(p)))
  {
    hide PlanInv, PlansGrow;
    var a := Adopted(p);
    AdoptionParts(s);
    NotAdopted(s, p);
    NowPresent(s.contracts, s.edges, p);
    assert Extends(s.adopted, s.adopted[p.planDigest := IdList(a.contracts)]);
    hide PlansNamed, Adopted, AddContracts, AddDrafts, FreshContracts, AdoptedPresent, OneAdoption, OneOutcome, LatestKnown, AlreadyAdopted, PlanPresent, PlanOf;
    hide Extends, IdList;
    PresentAfter(s.contracts, s.edges, s.plans, s.adopted, AddContracts(s.contracts, a.contracts), a.edges, p.planDigest, IdList(a.contracts));
    OneMoreAdoption(s.plans, s.adopted, p.planDigest, IdList(a.contracts));
    AdoptedState(s, WithAdoption(s, p.planDigest, a));
  }

  lemma AdoptionParts(s: State)
    requires PlanInv(s)
    ensures AdoptedPresent(s.contracts, s.edges, s.plans, s.adopted) && OneAdoption(s.plans, s.adopted)
  {
  }

  /** A state that differs in its graph and its adoptions alone. */
  lemma AdoptedState(s: State, t: State)
    requires PlanInv(s)
    requires t.plans == s.plans && t.plansByPlanner == s.plansByPlanner && t.latestPlansByTask == s.latestPlansByTask
    requires t.planRejectionsByPlanner == s.planRejectionsByPlanner
    requires AdoptedPresent(t.contracts, t.edges, t.plans, t.adopted) && OneAdoption(t.plans, t.adopted) && Extends(s.adopted, t.adopted)
    ensures PlanInv(t) && PlansGrow(s, t)
  {
    SameMap(s.plans);
    SameMap(s.plansByPlanner);
    SameMap(s.planRejectionsByPlanner);
    hide PlansNamed, AdoptedPresent, OneAdoption, OneOutcome, LatestKnown, Extends;
  }

  lemma AdoptKeepsPlans(s: State, id: TaskId, d: Digest)
    requires PlanInv(s) && AdoptPlan(s, id, d).Ok?
    ensures PlanInv(AdoptPlan(s, id, d).value) && PlansGrow(s, AdoptPlan(s, id, d).value)
  {
    assert d in s.plans && s.plans[d].planDigest == d by { hide ParsedPlan, Adopted, PlanPresent; }
    if d !in s.adopted {
      var p := s.plans[d];
      hide PlanInv, PlansGrow, ParsedPlan, Adopted, DependencyCheck, MutableCheck, HeldByWorkflow, WithAdoption, HasContract, FreshContracts;
      Adopts(s, p);
    }
  }

  lemma CarriedPlanParses(event: Event)
    requires ParseCheck(event).Pass? && CarriesPlan(event.body)
    ensures ParsedPlan(event.body.plan)
  {
  }

  lemma StepKeepsPlans(s: State, event: Event, last: int, sequence: int)
    requires Inv(s, last) && PlanInv(s) && last < sequence && 1 <= sequence && Step(s, event, sequence).Ok?
    ensures PlanInv(Step(s, event, sequence).value) && PlansGrow(s, Step(s, event, sequence).value)
  {
    hide Inv, Grows, PlanInv, PlansGrow, ParseCheck, ParsedPlan, SamePlans;
    if AboutPlans(event.body) {
      if CarriesPlan(event.body) { CarriedPlanParses(event); }
      hide CreateTask, ChangeLifecycle, AddDependency, Prepare, TransitionAttempt, RecordReceipt, AbortAttempt, ProposePlan, RevisePlan, RejectPlan, AdoptPlan;
      hide RecordResolution, StartWorkflow, BindPlan, StopWorkflow;
      match event.body
      case PlanProposed(planner, p) => ProposeKeeps(s, planner, p);
      case PlanRevised(base, p) => ReviseKeeps(s, base, p, HeldByWorkflow(s, p.sourceTaskId, false));
      case PlanRejected(id, planner, reason) => RejectKeeps(s, id, planner, reason);
      case PlanAdopted(id, d) => AdoptKeepsPlans(s, id, d);
    } else {
      hide Step;
      OtherSteps(s, event, sequence);
      StepKeeps(s, event, last, sequence);
      GrowingGraph(s, Step(s, event, sequence).value, last);
      SamePlansKeep(s, Step(s, event, sequence).value);
    }
  }

  lemma GrowingGraph(s: State, t: State, bound: int)
    requires Grows(s, t, bound)
    ensures Extends(s.contracts, t.contracts) && s.edges <= t.edges
  {
  }

  // ----- Whole runs -----

  lemma LegacyLeaves(s: State, a: Action, sequence: int)
    requires Act(s, a, sequence).Ok? && !a.Apply?
    ensures SamePlans(s, Act(s, a, sequence).value)
    ensures SameAttempts(s, Act(s, a, sequence).value)
  {
    hide Step;
  }

  lemma ActKeepsPlans(s: State, a: Action, last: int, sequence: int)
    requires Inv(s, last) && PlanInv(s) && last < sequence && 1 <= sequence && Act(s, a, sequence).Ok?
    ensures PlanInv(Act(s, a, sequence).value) && PlansGrow(s, Act(s, a, sequence).value)
  {
    hide Inv, Grows, PlanInv, PlansGrow, SamePlans, Step;
    if a.Apply? {
      StepKeepsPlans(s, a.event, last, sequence);
    } else {
      LegacyLeaves(s, a, sequence);
      ActKeeps(s, a, last, sequence);
      GrowingGraph(s, Act(s, a, sequence).value, last);
      SamePlansKeep(s, Act(s, a, sequence).value);
    }
  }

  lemma PlansGrowTransitive(s: State, t: State, u: State)
    requires PlansGrow(s, t) && PlansGrow(t, u)
    ensures PlansGrow(s, u)
  {
    ExtendsTransitive(s.plans, t.plans, u.plans);
    ExtendsTransitive(s.plansByPlanner, t.plansByPlanner, u.plansByPlanner);
    ExtendsTransitive(s.planRejectionsByPlanner, t.planRejectionsByPlanner, u.planRejectionsByPlanner);
    ExtendsTransitive(s.adopted, t.adopted, u.adopted);
  }

  lemma NoPlans()
    ensures PlanInv(EMPTY_STATE)
  {
  }

  lemma {:induction false} RunPlans(r: Run, i: nat)
    requires ValidRun(r) && i < |r.states|
    ensures PlanInv(r.states[i])
    ensures i > 0 ==> PlansGrow(r.states[i - 1], r.states[i])
  {
    hide Inv, Grows, Act, ValidRun, PlanInv, PlansGrow;
    RunLength(r);
    if i == 0 {
      NoPlans();
    } else {
      RunPlans(r, i - 1);
      RunInv(r, i - 1);
      RunStep(r, i - 1);
      SequencesRise(r, i - 1, i - 1);
      ActKeepsPlans(r.states[i - 1], r.actions[i - 1], Before(r, i - 1), r.sequences[i - 1]);
    }
  }

  lemma {:induction false} RunPlansGrow(r: Run, i: nat, j: nat)
    requires ValidRun(r) && i <= j < |r.states|
    ensures PlansGrow(r.states[i], r.states[j])
    decreases j
  {
    hide ValidRun, PlanInv;
    if i < j {
      RunPlansGrow(r, i, j - 1);
      RunPlans(r, j);
      hide PlansGrow;
      PlansGrowTransitive(r.states[i], r.states[j - 1], r.states[j]);
    }
  }

  /**
   * Over any run, plans keep their digests, a planner's outcome is a plan or a rejection and never
   * changes, and a task has at most one adopted plan.
   */
  lemma PlanOutcomesAreFinal(r: Run, i: nat, j: nat, planner: TaskId)
    requires ValidRun(r) && i <= j < |r.states|
    ensures var (s, t) := (r.states[i], r.states[j]);
            && (planner in s.plansByPlanner ==>
                  && planner in t.plansByPlanner && t.plansByPlanner[planner] == s.plansByPlanner[planner]
                  && planner !in t.planRejectionsByPlanner)
            && (planner in s.planRejectionsByPlanner ==>
                  && planner in t.planRejectionsByPlanner && t.planRejectionsByPlanner[planner] == s.planRejectionsByPlanner[planner]
                  && planner !in t.plansByPlanner)
    ensures forall d :: d in r.states[j].plans ==> r.states[j].plans[d].planDigest == d
    ensures var t := r.states[j];
            forall d, e, source :: (d in t.adopted && e in t.adopted && PlanOf(t.plans, d, source) && PlanOf(t.plans, e, source)) ==> d == e
  {
    RunPlansGrow(r, i, j);
    RunPlans(r, j);
    hide ValidRun, ParsedPlan, PlanPresent, PlanOf;
  }

  /**
   * An adopted plan stays: in every later state its children are the contracts it derived, the graph
   * is acyclic, and every child still leads to the source task.
   */
  lemma AdoptedPlanStays(r: Run, i: nat, j: nat, d: Digest, child: TaskId)
    requires ValidRun(r) && i <= j < |r.states| && d in r.states[i].adopted
    ensures d in r.states[j].adopted && d in r.states[j].plans
    ensures child in Children(r.states[j].plans[d]) ==>
              && child in r.states[j].contracts
              && Reaches(r.states[j].edges, child, r.states[j].plans[d].sourceTaskId)
    ensures Acyclic(r.states[j].edges)
  {
    hide ValidRun;
    RunPlansGrow(r, i, j);
    RunPlans(r, j);
    RunInv(r, j);
    var t := r.states[j];
    AcyclicNow(t, Before(r, j));
    PresentNow(t, d);
    hide Inv, PlanInv, PlansGrow, ParsedPlan, Reaches, Acyclic;
    if child in Children(t.plans[d]) {
      ChildPresent(t, t.plans[d], child);
      hide PlanPresent;
      ChildReachesSource(t.plans[d], t.edges, child);
    }
  }

  lemma AcyclicNow(s: State, last: int)
    requires Inv(s, last)
    ensures Acyclic(s.edges)
  {
    hide AttemptInv, OneLiveAttempt, AbortInv, DependenciesMet, ResolutionInv, WorkflowInv, FrozenGraphs, OnlyAuthorised;
  }

  lemma PresentNow(s: State, d: Digest)
    requires PlanInv(s) && d in s.adopted
    ensures d in s.plans && ParsedPlan(s.plans[d]) && PlanPresent(s.contracts, s.edges, s.plans[d])
  {
    hide ParsedPlan, PlanPresent;
  }

  lemma ChildPresent(s: State, p: Plan, child: TaskId)
    requires PlanPresent(s.contracts, s.edges, p) && child in Children(p)
    ensures child in s.contracts
    ensures forall e :: e in Adopted(p).edges ==> e in s.edges
  {
    var t :| t in p.tasks && Child(p, t.key) == child;
    var i :| 0 <= i < |p.tasks| && p.tasks[i] == t;
    assert Adopted(p).contracts[i] == ChildContract(p, t);
    assert ChildContract(p, t) in Adopted(p).contracts;
  }
}
