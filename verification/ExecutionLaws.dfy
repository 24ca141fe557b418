/** What the events of a run leave alone, and what follows for stopped workflows and launches (packages/domain/src/execution.ts). */
module ExecutionLaws {
  import opened Wrappers
  import opened Dependencies
  import opened Attempts
  import opened Plans
  import opened Execution
  import opened ExecutionSafety
  import opened ExecutionRuns
  import opened ExecutionEffects

  // ----- What each event leaves alone -----

  /** Only some events change contracts, lifecycles and edges. */
  predicate GraphFrame(s: State, t: State, b: Body) {
    && (!b.TaskCreated? && !b.PlanAdopted? ==> t.contracts == s.contracts)
    && (!b.TaskCreated? && !b.TaskActivated? && !b.TaskResolved? && !b.PlanAdopted? ==> t.lifecycles == s.lifecycles)
    && (!b.DependencyAdded? && !b.PlanAdopted? ==> t.edges == s.edges)
    && (!b.TaskResolved? ==> t.resolutions == s.resolutions)
  }

  /** Only some events change attempts and their records. */
  predicate AttemptFrame(s: State, t: State, b: Body) {
    && (!b.ExecutionPrepared? ==> t.prepared == s.prepared)
    && (!b.ExecutionPrepared? && !b.ExecutionTransition? && !b.ExecutionReceipt? && !b.ExecutionAborted? ==> t.attempts == s.attempts)
    && (!b.ExecutionAborted? ==> t.aborted == s.aborted)
    && (!b.ExecutionReceipt? ==> t.receipts == s.receipts)
  }

  /** Only some events change plans and workflows. */
  predicate PlanFrame(s: State, t: State, b: Body) {
    && (!b.PlanProposed? && !b.PlanRevised? ==> t.plans == s.plans && t.latestPlansByTask == s.latestPlansByTask)
    && (!b.PlanProposed? ==> t.plansByPlanner == s.plansByPlanner)
    && (!b.PlanRejected? ==> t.planRejectionsByPlanner == s.planRejectionsByPlanner)
    && (!b.PlanProposed? && !b.PlanRevised? && !b.PlanRejected? ==> t.planRejections == s.planRejections)
    && (!b.PlanAdopted? ==> t.adopted == s.adopted)
    && (!b.WorkflowStarted? && !b.WorkflowPlanBound? && !b.WorkflowStopped? ==> t.workflows == s.workflows)
  }

  predicate EventFrame(s: State, t: State, b: Body) {
    GraphFrame(s, t, b) && AttemptFrame(s, t, b) && PlanFrame(s, t, b)
  }

  lemma TaskFrames(s: State, e: Event, sequence: int)
    requires Step(s, e, sequence).Ok? && (e.body.TaskCreated? || e.body.TaskActivated? || e.body.DependencyAdded? || e.body.TaskResolved?)
    ensures EventFrame(s, Step(s, e, sequence).value, e.body)
  {
    hide Step, MayChange, Acyclic, WellFormedGraph, ResolveTask, TaskAttempts;
    match e.body
    case TaskCreated(_) => TaskCreatedEffect(s, e, sequence);
    case TaskActivated(_) => TaskActivatedEffect(s, e, sequence);
    case DependencyAdded(_) => DependencyAddedEffect(s, e, sequence);
    case TaskResolved(_) => TaskResolvedEffect(s, e, sequence);
  }

  lemma AttemptFrames(s: State, e: Event, sequence: int)
    requires Step(s, e, sequence).Ok? && (e.body.ExecutionPrepared? || e.body.ExecutionTransition? || e.body.ExecutionAborted?)
    ensures EventFrame(s, Step(s, e, sequence).value, e.body)
  {
    hide Step, SelfConsistent, WorkflowLaunches, JoinFreezes, NoneOpen, ReceiptOf, SuccessObserved, ReduceDispatch, Names;
    match e.body
    case ExecutionPrepared(_) => ExecutionPreparedEffect(s, e, sequence);
    case ExecutionTransition(_, _, _, _, _) => ExecutionTransitionEffect(s, e, sequence);
    case ExecutionAborted(_, _, _, _, _) => ExecutionAbortedEffect(s, e, sequence);
  }

  lemma ReceiptFrames(s: State, e: Event, sequence: int)
    requires Step(s, e, sequence).Ok? && e.body.ExecutionReceipt?
    ensures EventFrame(s, Step(s, e, sequence).value, e.body)
  {
    hide Step, Names, ReceiptOf, SuccessObserved, ReduceDispatch;
    ExecutionReceiptEffect(s, e, sequence);
  }

  lemma ProposalFrames(s: State, e: Event, sequence: int)
    requires Step(s, e, sequence).Ok? && e.body.PlanProposed?
    ensures EventFrame(s, Step(s, e, sequence).value, e.body)
  {
    hide Step, ParsedPlan, MayPropose;
    TaskPlanProposedEffect(s, e, sequence);
  }

  lemma PlanFrames(s: State, e: Event, sequence: int)
    requires Step(s, e, sequence).Ok? && (e.body.PlanRevised? || e.body.PlanRejected?)
    ensures EventFrame(s, Step(s, e, sequence).value, e.body)
  {
    hide Step, ParsedPlan, Revisable;
    match e.body
    case PlanRevised(_, _) => TaskPlanRevisedEffect(s, e, sequence);
    case PlanRejected(_, _, _) => TaskPlanRejectedEffect(s, e, sequence);
  }

  lemma NothingChanged(s: State, b: Body)
    ensures EventFrame(s, s, b)
  {
  }

  lemma AdoptionOnly(s: State, t: State, p: Plan, b: Body)
    requires AdoptedInto(s, t, p) && b.PlanAdopted?
    ensures EventFrame(s, t, b)
  {
    hide Added, Adopted;
  }

  lemma AdoptionFrames(s: State, e: Event, sequence: int)
    requires Step(s, e, sequence).Ok? && e.body.PlanAdopted?
    ensures EventFrame(s, Step(s, e, sequence).value, e.body)
  {
    hide Step, MayAdopt, AdoptedInto, EventFrame;
    TaskPlanAdoptedEffect(s, e, sequence);
    var plan := s.plans[e.body.planDigest];
    if plan.planDigest in s.adopted {
      NothingChanged(s, e.body);
    } else {
      AdoptionOnly(s, Step(s, e, sequence).value, plan, e.body);
    }
  }

  lemma WorkflowFrames(s: State, e: Event, sequence: int)
    requires Step(s, e, sequence).Ok? && (e.body.WorkflowStarted? || e.body.WorkflowPlanBound? || e.body.WorkflowStopped?)
    ensures EventFrame(s, Step(s, e, sequence).value, e.body)
  {
    hide Step, WellShaped, StillContract, SourceFits, ParentFor, TargetGraph;
    match e.body
    case WorkflowStarted(_) => WorkflowStartedEffect(s, e, sequence);
    case WorkflowPlanBound(_, _, _) => WorkflowPlanBoundEffect(s, e, sequence);
    case WorkflowStopped(_, _, _) => WorkflowStoppedEffect(s, e, sequence);
  }

  /** Every accepted event changes only the components that are its own. */
  lemma EveryEventFrames(s: State, e: Event, sequence: int)
    requires Step(s, e, sequence).Ok?
    ensures EventFrame(s, Step(s, e, sequence).value, e.body)
  {
    hide Step, EventFrame;
    var b := e.body;
    if b.TaskCreated? || b.TaskActivated? || b.DependencyAdded? || b.TaskResolved? {
      TaskFrames(s, e, sequence);
    } else if b.ExecutionReceipt? {
      ReceiptFrames(s, e, sequence);
    } else if b.ExecutionPrepared? || b.ExecutionTransition? || b.ExecutionAborted? {
      AttemptFrames(s, e, sequence);
    } else if b.PlanProposed? {
      ProposalFrames(s, e, sequence);
    } else if b.PlanRevised? || b.PlanRejected? {
      PlanFrames(s, e, sequence);
    } else if b.PlanAdopted? {
      AdoptionFrames(s, e, sequence);
    } else {
      WorkflowFrames(s, e, sequence);
    }
  }

  /** The older events change contracts and lifecycles alone. */
  predicate LegacyFrame(s: State, t: State) {
    t == s.(contracts := t.contracts, lifecycles := t.lifecycles)
  }

  lemma LegacyFrames(s: State, a: Action, sequence: int)
    requires Act(s, a, sequence).Ok? && !a.Apply?
    ensures LegacyFrame(s, Act(s, a, sequence).value)
  {
    hide Step;
  }

  lemma AppliedStep(s: State, a: Action, sequence: int)
    requires a.Apply?
    ensures Act(s, a, sequence) == Step(s, a.event, sequence)
  {
    hide Step;
  }

  // ----- Workflows -----

  /** The action stops the workflow in this state, for this reason. */
  predicate Stops(a: Action, w: string, state: WorkflowState, reason: string) {
    a.Apply? && a.event.body == WorkflowStopped(w, state, reason)
  }

  /** The action binds a plan to the workflow, which had none, and it goes on running. */
  predicate Binds(v: Workflow, u: Workflow, a: Action, w: string) {
    && a.Apply? && a.event.body.WorkflowPlanBound? && a.event.body.workflowId == w
    && v.authorization.graphDigest == None
    && u == v.(authorization := v.authorization.(graphDigest := Some(a.event.body.graphDigest), planDigest := Some(a.event.body.planDigest)))
  }

  /** What one action may do to a workflow that is there: nothing, or bind a plan or stop it while it runs. */
  predicate WorkflowMoves(v: Workflow, u: Workflow, a: Action, w: string) {
    u == v ||
    (v.state == Running &&
     (Binds(v, u, a, w) ||
      (u.state != Running && u.reasonCode.Some? && Stops(a, w, u.state, u.reasonCode.value) && u.authorization == v.authorization)))
  }

  /** The action starts the workflow, which was not there. */
  predicate Starts(a: Action, w: string, u: Workflow) {
    a.Apply? && a.event.body.WorkflowStarted? && a.event.body.authorization.workflowId == w && u == Workflow(a.event.body.authorization, Running, None)
  }

  predicate WorkflowsMove(s: State, t: State, a: Action) {
    && (forall w :: w in s.workflows ==> w in t.workflows && WorkflowMoves(s.workflows[w], t.workflows[w], a, w))
    && forall w :: w in t.workflows && w !in s.workflows ==> Starts(a, w, t.workflows[w])
  }

  lemma StartMovesWorkflows(s: State, e: Event, sequence: int)
    requires Step(s, e, sequence).Ok? && e.body.WorkflowStarted?
    ensures WorkflowsMove(s, Step(s, e, sequence).value, Apply(e))
  {
    hide Step, WellShaped, StillContract, SourceFits, ParentFor, TargetGraph;
    WorkflowStartedEffect(s, e, sequence);
  }

  lemma BindMovesWorkflows(s: State, e: Event, sequence: int)
    requires Step(s, e, sequence).Ok? && e.body.WorkflowPlanBound?
    ensures WorkflowsMove(s, Step(s, e, sequence).value, Apply(e))
  {
    hide Step, TargetGraph;
    WorkflowPlanBoundEffect(s, e, sequence);
  }

  lemma StopMovesWorkflows(s: State, e: Event, sequence: int)
    requires Step(s, e, sequence).Ok? && e.body.WorkflowStopped?
    ensures WorkflowsMove(s, Step(s, e, sequence).value, Apply(e))
  {
    hide Step;
    WorkflowStoppedEffect(s, e, sequence);
  }

  lemma EventMovesWorkflows(s: State, e: Event, sequence: int)
    requires Step(s, e, sequence).Ok?
    ensures WorkflowsMove(s, Step(s, e, sequence).value, Apply(e))
  {
    hide Step, GraphFrame, AttemptFrame, WorkflowsMove;
    match e.body
    case WorkflowStarted(_) => StartMovesWorkflows(s, e, sequence);
    case WorkflowPlanBound(_, _, _) => BindMovesWorkflows(s, e, sequence);
    case WorkflowStopped(_, _, _) => StopMovesWorkflows(s, e, sequence);
    case _ =>
      EveryEventFrames(s, e, sequence);
      SameWorkflows(s, Step(s, e, sequence).value, Apply(e));
  }

  lemma ActionMovesWorkflows(s: State, a: Action, sequence: int)
    requires Act(s, a, sequence).Ok?
    ensures WorkflowsMove(s, Act(s, a, sequence).value, a)
  {
    hide Step, Act, WorkflowMoves;
    if a.Apply? {
      AppliedStep(s, a, sequence);
      EventMovesWorkflows(s, a.event, sequence);
    } else {
      LegacyFrames(s, a, sequence);
      SameWorkflows(s, Act(s, a, sequence).value, a);
    }
  }

  lemma SameWorkflows(s: State, t: State, a: Action)
    requires t.workflows == s.workflows
    ensures WorkflowsMove(s, t, a)
  {
  }

  lemma RunMovesWorkflows(r: Run, i: nat)
    requires ValidRun(r) && i < |r.actions|
    ensures |r.states| == |r.actions| + 1 && WorkflowsMove(r.states[i], r.states[i + 1], r.actions[i])
  {
    hide ValidRun, Act, WorkflowsMove;
    RunLength(r);
    RunStep(r, i);
    ActionMovesWorkflows(r.states[i], r.actions[i], r.sequences[i]);
  }

  /** What an accepted stop does in a run. */
  lemma StopInRun(r: Run, i: nat, w: string, state: WorkflowState, reason: string)
    requires ValidRun(r) && i < |r.actions| && Stops(r.actions[i], w, state, reason)
    ensures |r.states| == |r.actions| + 1
    ensures w in r.states[i].workflows && w in r.states[i + 1].workflows && state != Running
    ensures r.states[i].workflows[w].state == Running
    ensures r.states[i + 1] == r.states[i].(workflows := r.states[i].workflows[w := Workflow(r.states[i].workflows[w].authorization, state, Some(reason))])
  {
    hide ValidRun, Act, Step;
    RunLength(r);
    RunStep(r, i);
    AppliedStep(r.states[i], r.actions[i], r.sequences[i]);
    WorkflowStoppedEffect(r.states[i], r.actions[i].event, r.sequences[i]);
  }

  /** A stopped workflow keeps its state, its reason and its authorization for the rest of the run: it never runs again. */
  lemma {:induction false} StoppedForGood(r: Run, i: nat, j: nat, w: string, state: WorkflowState, reason: string)
    requires ValidRun(r) && i < j < |r.states| && i < |r.actions| && Stops(r.actions[i], w, state, reason)
    ensures state != Running && w in r.states[i].workflows && w in r.states[j].workflows
    ensures r.states[j].workflows[w] == Workflow(r.states[i].workflows[w].authorization, state, Some(reason))
    decreases j
  {
    hide ValidRun, Stops;
    RunLength(r);
    StopInRun(r, i, w, state, reason);
    if i + 1 < j {
      StoppedForGood(r, i, j - 1, w, state, reason);
      RunMovesWorkflows(r, j - 1);
    }
  }

  /** A workflow that runs at one time and does not run later was stopped in between, as an event says. */
  lemma {:induction false} StopBetween(r: Run, i: nat, j: nat, w: string) returns (n: nat)
    requires ValidRun(r) && i <= j < |r.states|
    requires w in r.states[i].workflows && r.states[i].workflows[w].state == Running
    requires w in r.states[j].workflows ==> r.states[j].workflows[w].state != Running
    ensures |r.states| == |r.actions| + 1 && i <= n < j && w in r.states[j].workflows
    ensures r.states[j].workflows[w].reasonCode.Some?
    ensures Stops(r.actions[n], w, r.states[j].workflows[w].state, r.states[j].workflows[w].reasonCode.value)
    decreases j
  {
    hide ValidRun;
    RunLength(r);
    assert i < j;
    RunMovesWorkflows(r, j - 1);
    RunGrows(r, i, j - 1);
    WorkflowLater(r.states[i], r.states[j - 1], Before(r, i), w);
    if r.states[j - 1].workflows[w].state == Running {
      n := j - 1;
    } else {
      n := StopBetween(r, i, j - 1, w);
    }
  }

  // ----- Launches under a workflow -----

  lemma PreparedBy(s: State, a: Action, sequence: int, k: AttemptKey)
    requires Act(s, a, sequence).Ok? && k in Act(s, a, sequence).value.prepared && k !in s.prepared
    ensures a.Apply? && a.event.body.ExecutionPrepared?
    ensures var (p, t) := (a.event.body.prepared, Act(s, a, sequence).value);
            && k == AttemptKey(p.attemptId, p.generation) && t.prepared == s.prepared[k := p]
            && SelfConsistent(p) && JoinFreezes(s, p.taskId, p.join) && (p.workflowId.Some? ==> WorkflowLaunches(s, p))
            && t.workflows == s.workflows
  {
    hide Step, Act, SelfConsistent, WorkflowLaunches, JoinFreezes, NoneOpen, GraphFrame, PlanFrame;
    if a.Apply? {
      AppliedStep(s, a, sequence);
      EveryEventFrames(s, a.event, sequence);
      if a.event.body.ExecutionPrepared? { ExecutionPreparedEffect(s, a.event, sequence); }
    } else {
      LegacyFrames(s, a, sequence);
    }
  }

  lemma LaunchedWhileRunning(s: State, p: Prepared)
    requires p.workflowId.Some? && WorkflowLaunches(s, p)
    ensures p.workflowId.value in s.workflows && s.workflows[p.workflowId.value].state == Running
  {
    hide NotCancelled, StillContract, TargetGraph, ParentFor;
  }

  /** Once a workflow was stopped nothing is prepared under it: what is prepared later was prepared before the stop. */
  lemma {:induction false} NonePreparedAfterStop(r: Run, i: nat, j: nat, w: string, state: WorkflowState, reason: string, k: AttemptKey)
    requires ValidRun(r) && i < j < |r.states| && i < |r.actions| && Stops(r.actions[i], w, state, reason)
    requires k in r.states[j].prepared && r.states[j].prepared[k].workflowId == Some(w)
    ensures k in r.states[i].prepared && r.states[i].prepared[k] == r.states[j].prepared[k]
    decreases j
  {
    hide ValidRun, Act, WorkflowLaunches, SelfConsistent, JoinFreezes, Stops;
    RunLength(r);
    StopInRun(r, i, w, state, reason);
    if i + 1 < j {
      RunStep(r, j - 1);
      StoppedForGood(r, i, j - 1, w, state, reason);
      if k in r.states[j - 1].prepared {
        RunGrows(r, j - 1, j);
        SamePrepared(r.states[j - 1], r.states[j], Before(r, j - 1), k);
        NonePreparedAfterStop(r, i, j - 1, w, state, reason, k);
      } else {
        PreparedBy(r.states[j - 1], r.actions[j - 1], r.sequences[j - 1], k);
        LaunchedWhileRunning(r.states[j - 1], r.states[j].prepared[k]);
      }
    }
  }

  lemma SamePrepared(s: State, t: State, bound: int, k: AttemptKey)
    requires Grows(s, t, bound) && k in s.prepared
    ensures k in t.prepared && t.prepared[k] == s.prepared[k]
  {
  }
}
