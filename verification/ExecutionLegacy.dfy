/** The older event that resolves a task by its lifecycle alone (packages/domain/src/receipt.ts). */
module ExecutionLegacy {
  import opened Identity
  import opened Dependencies
  import opened Attempts
  import opened Plans
  import opened Execution
  import opened ExecutionSafety
  import opened ExecutionRuns
  import opened ExecutionPlans
  import opened ExecutionReceipts

  /** The lifecycle of a task is resolved, and no resolution of it is recorded. */
  predicate Unrecorded(lifecycles: map<TaskId, Lifecycle>, resolutions: map<TaskId, TaskResolution>, id: TaskId) {
    id in lifecycles && lifecycles[id].Resolved? && id !in resolutions
  }

  /** The same tasks are resolved without a record. */
  ghost predicate SameUnrecorded(s: State, t: State) {
    forall id :: Unrecorded(t.lifecycles, t.resolutions, id) <==> Unrecorded(s.lifecycles, s.resolutions, id)
  }

  // ----- One event -----

  lemma SameOutcomesRecord(s: State, t: State)
    requires SameOutcomes(s, t)
    ensures SameUnrecorded(s, t)
  {
  }

  /** Tasks that were not resolved became drafts or active. */
  predicate OnlyOpened(m: map<TaskId, Lifecycle>, n: map<TaskId, Lifecycle>) {
    && (forall id :: id in m && m[id].Resolved? ==> id in n && n[id].Resolved?)
    && (forall id :: id in n && n[id].Resolved? ==> id in m && m[id].Resolved?)
  }

  lemma OpenedRecord(s: State, t: State)
    requires OnlyOpened(s.lifecycles, t.lifecycles) && t.resolutions == s.resolutions
    ensures SameUnrecorded(s, t)
  {
  }

  lemma CreateRecords(s: State, c: Contract, last: int)
    requires Inv(s, last) && CreateTask(s, c).Ok?
    ensures SameUnrecorded(s, CreateTask(s, c).value)
  {
    HasLifecycle(s, c.taskId, last);
    hide Inv;
    OpenedRecord(s, CreateTask(s, c).value);
  }

  lemma ActivateRecords(s: State, id: TaskId)
    requires ChangeLifecycle(s, id, Activate).Ok?
    ensures SameUnrecorded(s, ChangeLifecycle(s, id, Activate).value)
  {
    OpenedRecord(s, ChangeLifecycle(s, id, Activate).value);
  }

  lemma {:induction false} DraftsOpened(lifecycles: map<TaskId, Lifecycle>, cs: seq<Contract>)
    requires forall c :: c in cs ==> c.taskId !in lifecycles
    ensures OnlyOpened(lifecycles, AddDrafts(lifecycles, cs))
  {
    if cs != [] {
      assert cs[|cs| - 1] in cs;
      DraftsOpened(lifecycles, cs[..|cs| - 1]);
    }
  }

  /** An adoption leaves the lifecycles, or adds drafts of tasks that were not known. */
  lemma AdoptionOpens(s: State, id: TaskId, d: Digest)
    requires AdoptPlan(s, id, d).Ok?
    ensures AdoptPlan(s, id, d).value.resolutions == s.resolutions
    ensures AdoptPlan(s, id, d).value.lifecycles == s.lifecycles ||
            exists cs :: Opens(s, cs) && AdoptPlan(s, id, d).value.lifecycles == AddDrafts(s.lifecycles, cs)
  {
    hide ParsedPlan, Adopted, AddContracts, AddDrafts, DependencyCheck, MutableCheck, HeldByWorkflow, HasContract, IdList;
    if s.plans[d].planDigest !in s.adopted {
      assert Opens(s, Adopted(s.plans[d]).contracts);
    }
  }

  predicate Opens(s: State, cs: seq<Contract>) {
    forall c :: c in cs ==> c.taskId !in s.contracts
  }

  lemma AdoptRecords(s: State, id: TaskId, d: Digest, last: int)
    requires Inv(s, last) && AdoptPlan(s, id, d).Ok?
    ensures SameUnrecorded(s, AdoptPlan(s, id, d).value)
  {
    KnownLifecycles(s, last);
    AdoptionOpens(s, id, d);
    hide Inv, AdoptPlan, AddDrafts, OnlyOpened, SameUnrecorded;
    var t := AdoptPlan(s, id, d).value;
    if t.lifecycles == s.lifecycles {
      SameOutcomesRecord(s, t);
    } else {
      var cs :| Opens(s, cs) && t.lifecycles == AddDrafts(s.lifecycles, cs);
      DraftsOpened(s.lifecycles, cs);
      OpenedRecord(s, t);
    }
  }

  lemma KnownLifecycles(s: State, last: int)
    requires Inv(s, last)
    ensures s.lifecycles.Keys == s.contracts.Keys
  {
  }

  /** A recorded resolution is of a task that was not resolved before. */
  lemma ResolutionRecords(s: State, r: TaskResolution, attempts: seq<Attempt>)
    requires RecordResolution(s, r, attempts).Ok?
    ensures SameUnrecorded(s, RecordResolution(s, r, attempts).value)
  {
    hide ResolveTask, ResolutionRequest;
  }

  lemma StepRecords(s: State, event: Event, last: int, sequence: int)
    requires Inv(s, last) && Step(s, event, sequence).Ok?
    ensures SameUnrecorded(s, Step(s, event, sequence).value)
  {
    hide Inv, SameUnrecorded, SameOutcomes, SamePlans, SameAttempts, ParseCheck, CreateTask, ChangeLifecycle, AddDependency;
    hide Prepare, TransitionAttempt, RecordReceipt;
    hide AbortAttempt, RecordResolution, StartWorkflow, BindPlan, StopWorkflow, ProposePlan, RevisePlan, RejectPlan, AdoptPlan, TaskAttempts, DependencyCheck;
    var t := Step(s, event, sequence).value;
    match event.body
    case TaskCreated(c) => CreateRecords(s, c, last);
    case TaskActivated(id) => ActivateRecords(s, id);
    case PlanAdopted(id, d) => AdoptRecords(s, id, d, last);
    case TaskResolved(r) => ResolutionRecords(s, r, TaskAttempts(s, r.taskId));
    case _ =>
      OthersRecord(s, event, sequence);
      SameOutcomesRecord(s, t);
  }

  lemma OthersRecord(s: State, event: Event, sequence: int)
    requires Step(s, event, sequence).Ok?
    requires !event.body.TaskCreated? && !event.body.TaskActivated? && !event.body.PlanAdopted? && !event.body.TaskResolved?
    ensures SameOutcomes(s, Step(s, event, sequence).value)
  {
    hide SameOutcomes, SamePlans, SameAttempts, ParseCheck, AddDependency, Prepare, TransitionAttempt, RecordReceipt, AbortAttempt;
    hide StartWorkflow, BindPlan, StopWorkflow, ProposePlan, RevisePlan, RejectPlan, DependencyCheck;
    match event.body
    case DependencyAdded(edge) =>
      AddDependencyLeaves(s, edge, HeldByWorkflow(s, edge.dependentTaskId, false), DependencyCheck(s.contracts.Keys, s.edges + [edge]));
    case ExecutionPrepared(p) => PrepareLeaves(s, p, if p.workflowId.Some? then WorkflowClosure(s, p.workflowId.value) else {});
    case ExecutionTransition(id, attempt, generation, digest, input) =>
      TransitionLeaves(s, AttemptKey(attempt, generation), id, digest, input);
    case ExecutionReceipt(id, attempt, generation, digest, receipt) =>
      ReceiptLeaves(s, event, AttemptKey(attempt, generation), id, digest, receipt, sequence);
    case ExecutionAborted(id, attempt, generation, digest, reason) =>
      AbortLeaves(s, AttemptKey(attempt, generation), id, digest, reason, sequence);
    case PlanProposed(planner, p) => ProposeLeaves(s, planner, p);
    case PlanRevised(base, p) => ReviseLeaves(s, base, p, HeldByWorkflow(s, p.sourceTaskId, false));
    case PlanRejected(id, planner, reason) => RejectAdoptLeave(s, id, planner, reason, Opaque(""));
    case WorkflowStarted(a) => StartLeaves(s, a, TaskClosure(s, a.targetTaskId));
    case WorkflowPlanBound(id, plan, graph) => BindLeaves(s, id, plan, graph, WorkflowClosure(s, id));
    case WorkflowStopped(id, state, reason) => StopLeaves(s, id, state, reason);
  }

  // ----- Whole runs -----

  /** Action `j` is the older event, on a task that is known when it comes. */
  predicate ResolvesKnown(r: Run, j: nat, id: TaskId)
    requires j < |r.actions| < |r.states|
  {
    r.actions[j].LegacyResolve? && r.actions[j].taskId == id && id in r.states[j].contracts
  }

  /** The tasks resolved without a record after an action: those before, and the one the older event names if it is known. */
  predicate RecordsAfter(s: State, a: Action, t: State, id: TaskId) {
    Unrecorded(t.lifecycles, t.resolutions, id)
    <==> Unrecorded(s.lifecycles, s.resolutions, id) || (a.LegacyResolve? && a.taskId == id && id in s.contracts)
  }

  lemma LegacyResolves(s: State, known: TaskId, resolution: TerminalState, id: TaskId)
    requires known in s.resolutions ==> known in s.lifecycles && s.lifecycles[known].Resolved?
    requires !IsResolved(s, known)
    ensures RecordsAfter(s, LegacyResolve(known, resolution),
                         if known in s.contracts then s.(lifecycles := s.lifecycles[known := Resolved(resolution)]) else s, id)
  {
  }

  lemma LegacyRecords(s: State, a: Action, last: int, sequence: int, id: TaskId)
    requires Inv(s, last) && Act(s, a, sequence).Ok? && !a.Apply?
    ensures RecordsAfter(s, a, Act(s, a, sequence).value, id)
  {
    NoLaterRecord(s, last);
    hide Inv, Step, CreateTask, Unrecorded;
    if a.LegacyCreate? {
      CreateRecords(s, a.contract, last);
    } else {
      LegacyResolves(s, a.taskId, a.resolution, id);
    }
  }

  lemma NoLaterRecord(s: State, last: int)
    requires Inv(s, last)
    ensures forall id :: id in s.resolutions ==> id in s.lifecycles && s.lifecycles[id].Resolved?
  {
  }

  lemma ActRecords(s: State, a: Action, last: int, sequence: int, id: TaskId)
    requires Inv(s, last) && Act(s, a, sequence).Ok?
    ensures RecordsAfter(s, a, Act(s, a, sequence).value, id)
  {
    hide Inv, Step, Unrecorded;
    if a.Apply? {
      StepRecords(s, a.event, last, sequence);
    } else {
      hide Act;
      LegacyRecords(s, a, last, sequence, id);
    }
  }

  lemma NoneUnrecorded(id: TaskId)
    ensures !Unrecorded(EMPTY_STATE.lifecycles, EMPTY_STATE.resolutions, id)
  {
  }

  /**
   * In every run, a task is resolved without a recorded resolution exactly when the older event
   * resolved it at a time when it was known.
   */
  lemma {:induction false} UnrecordedExactly(r: Run, i: nat, id: TaskId)
    requires ValidRun(r) && i < |r.states|
    ensures |r.states| == |r.actions| + 1
    ensures Unrecorded(r.states[i].lifecycles, r.states[i].resolutions, id) <==> exists j :: 0 <= j < i && ResolvesKnown(r, j, id)
  {
    hide ValidRun, Inv, Act, Unrecorded;
    RunLength(r);
    if i == 0 {
      NoneUnrecorded(id);
    } else {
      UnrecordedExactly(r, i - 1, id);
      RunInv(r, i - 1);
      RunStep(r, i - 1);
      ActRecords(r.states[i - 1], r.actions[i - 1], Before(r, i - 1), r.sequences[i - 1], id);
      assert ResolvesKnown(r, i - 1, id) <==>
             r.actions[i - 1].LegacyResolve? && r.actions[i - 1].taskId == id && id in r.states[i - 1].contracts;
    }
  }
}
