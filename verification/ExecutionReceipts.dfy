/** Recorded receipts that leave their attempts open (packages/domain/src/execution.ts, packages/domain/src/tasks.ts). */
module ExecutionReceipts {
  import opened Wrappers
  import opened Identity
  import opened Dependencies
  import opened Attempts
  import opened Plans
  import opened Execution
  import opened ExecutionSafety
  import opened ExecutionRuns
  import opened ExecutionPlans

  /** The handle in a receipt is the attempt's, or the attempt has none. */
  predicate HandleFits(a: Attempt, r: Receipt) {
    HasHandle(a.providerHandle) ==> a.providerHandle == Some(r.providerOperationId)
  }

  /** Recording a new receipt ends the attempt exactly when the handle in the receipt fits. */
  lemma ReceiptEndsAttempt(s: State, e: Event, k: AttemptKey, id: TaskId, digest: Digest, r: Receipt, last: int, sequence: int)
    requires Inv(s, last) && k !in s.receipts && r.providerOperationId != ""
    requires RecordReceipt(s, e, k, id, digest, r, sequence).Ok?
    ensures var t := RecordReceipt(s, e, k, id, digest, r, sequence).value;
            && k in s.attempts && k in t.attempts && k in t.receipts && t.receipts[k] == r
            && (!s.attempts[k].state.Terminal? ==>
                  (t.attempts[k].state.Terminal? <==> HandleFits(s.attempts[k], r))
                  && (!HandleFits(s.attempts[k], r) ==> CONFLICTING_PROVIDER_HANDLE in t.attempts[k].findingCodes))
  {
    hide Inv, ReceiptMatches, ProvenanceMatches;
  }

  /** A receipt was recorded, and the attempt is not terminal. */
  predicate LeftOpen(s: State, k: AttemptKey) {
    k in s.receipts && k in s.attempts && k in s.prepared && !s.attempts[k].state.Terminal?
  }

  /** An open attempt stays open, and no attempt is prepared for its task. */
  ghost predicate Blocks(s: State, t: State, k: AttemptKey)
    requires LeftOpen(s, k)
  {
    && LeftOpen(t, k) && Extends(s.prepared, t.prepared)
    && forall j :: j in t.prepared && t.prepared[j].taskId == s.prepared[k].taskId ==> j in s.prepared
  }

  lemma SameAttemptsBlock(s: State, t: State, k: AttemptKey)
    requires LeftOpen(s, k) && SameAttempts(s, t)
    ensures Blocks(s, t, k)
  {
  }

  lemma ProposeLeaves(s: State, planner: TaskId, p: Plan)
    requires ProposePlan(s, planner, p).Ok?
    ensures SameAttempts(s, ProposePlan(s, planner, p).value)
    ensures SameOutcomes(s, ProposePlan(s, planner, p).value)
  {
    hide HasContract, RecordPlan;
    RecordPlanLeaves(s, p);
  }

  lemma RecordPlanLeaves(s: State, p: Plan)
    ensures SameAttempts(s, RecordPlan(s, p))
    ensures SameOutcomes(s, RecordPlan(s, p))
  {
  }

  lemma ReviseLeaves(s: State, base: Digest, p: Plan, held: bool)
    requires RevisePlan(s, base, p, held).Ok?
    ensures SameAttempts(s, RevisePlan(s, base, p, held).value)
    ensures SameOutcomes(s, RevisePlan(s, base, p, held).value)
  {
    hide RevisionBase, RecordPlan;
    RecordPlanLeaves(s, p);
  }

  lemma RejectAdoptLeave(s: State, id: TaskId, planner: TaskId, reason: string, d: Digest)
    ensures RejectPlan(s, id, planner, reason).Ok? ==> SameAttempts(s, RejectPlan(s, id, planner, reason).value)
    ensures RejectPlan(s, id, planner, reason).Ok? ==> SameOutcomes(s, RejectPlan(s, id, planner, reason).value)
    ensures AdoptPlan(s, id, d).Ok? ==> SameAttempts(s, AdoptPlan(s, id, d).value)
  {
    hide ParsedPlan, Adopted, AddContracts, AddDrafts, DependencyCheck, MutableCheck, HeldByWorkflow, HasContract, FreshContracts, IdList;
  }

  lemma NotAboutAttempts(s: State, event: Event, sequence: int)
    requires Step(s, event, sequence).Ok?
    requires !event.body.ExecutionPrepared? && !event.body.ExecutionTransition? && !event.body.ExecutionReceipt? && !event.body.ExecutionAborted?
    ensures SameAttempts(s, Step(s, event, sequence).value)
  {
    hide SameAttempts, ParseCheck, CreateTask, ChangeLifecycle, AddDependency, Prepare, TransitionAttempt, RecordReceipt, AbortAttempt;
    hide RecordResolution, StartWorkflow, BindPlan, StopWorkflow, ProposePlan, RevisePlan, RejectPlan, AdoptPlan, TaskAttempts, DependencyCheck;
    match event.body
    case TaskCreated(c) => CreateTaskLeaves(s, c);
    case TaskActivated(id) => ChangeLifecycleLeaves(s, id, Activate);
    case DependencyAdded(edge) =>
      AddDependencyLeaves(s, edge, HeldByWorkflow(s, edge.dependentTaskId, false), DependencyCheck(s.contracts.Keys, s.edges + [edge]));
    case TaskResolved(r) => ResolutionLeaves(s, r, TaskAttempts(s, r.taskId));
    case PlanProposed(planner, p) => ProposeLeaves(s, planner, p);
    case PlanRevised(base, p) => ReviseLeaves(s, base, p, HeldByWorkflow(s, p.sourceTaskId, false));
    case PlanRejected(id, planner, reason) => RejectAdoptLeave(s, id, planner, reason, Opaque(""));
    case PlanAdopted(id, d) => RejectAdoptLeave(s, id, id, "", d);
    case WorkflowStarted(a) => StartLeaves(s, a, TaskClosure(s, a.targetTaskId));
    case WorkflowPlanBound(id, plan, graph) => BindLeaves(s, id, plan, graph, WorkflowClosure(s, id));
    case WorkflowStopped(id, state, reason) => StopLeaves(s, id, state, reason);
    case _ =>
  }

  lemma OpenFacts(s: State, k: AttemptKey, last: int)
    requires Inv(s, last) && LeftOpen(s, k)
    ensures s.prepared.Keys == s.attempts.Keys
    ensures !s.attempts[k].state.Planned? && Live(s.attempts[k])
    ensures AttemptKey(s.attempts[k].attemptId, s.attempts[k].generation) == k
    ensures HasLiveAttempt(s, s.prepared[k].taskId)
  {
    hide GraphInv, OneLiveAttempt, DependenciesMet, ResolutionInv, WorkflowInv, FrozenGraphs, OnlyAuthorised;
    assert ValidAttempt(k, s.attempts[k], last);
  }

  /** One attempt changed, and records only added: another attempt, or this one not ended, stays open. */
  lemma AttemptChanged(s: State, t: State, k: AttemptKey, a: Attempt, open: AttemptKey)
    requires LeftOpen(s, open) && t.prepared == s.prepared && t.attempts == s.attempts[k := a] && s.receipts.Keys <= t.receipts.Keys
    requires k == open ==> !a.state.Terminal?
    ensures Blocks(s, t, open)
  {
  }

  lemma AttemptAdded(s: State, t: State, k: AttemptKey, p: Prepared, a: Attempt, open: AttemptKey)
    requires LeftOpen(s, open) && k !in s.prepared && p.taskId != s.prepared[open].taskId
    requires t.prepared == s.prepared[k := p] && t.attempts == s.attempts[k := a] && t.receipts == s.receipts
    ensures Blocks(s, t, open)
  {
  }

  lemma PrepareShape(s: State, p: Prepared, closure: set<TaskId>)
    requires Prepare(s, p, closure).Ok?
    ensures var (t, k) := (Prepare(s, p, closure).value, AttemptKey(p.attemptId, p.generation));
            && k !in s.prepared && !HasLiveAttempt(s, p.taskId)
            && t.prepared == s.prepared[k := p] && t.attempts == s.attempts[k := NewAttempt(p)] && t.receipts == s.receipts
  {
    hide WorkflowPermits, JoinReady, HasLiveAttempt, NewAttempt;
  }

  lemma PrepareBlocked(s: State, p: Prepared, closure: set<TaskId>, k: AttemptKey, last: int)
    requires Inv(s, last) && LeftOpen(s, k) && Prepare(s, p, closure).Ok?
    ensures Blocks(s, Prepare(s, p, closure).value, k)
  {
    OpenFacts(s, k, last);
    PrepareShape(s, p, closure);
    hide Inv, Prepare, HasLiveAttempt, NewAttempt, Blocks, LeftOpen;
    AttemptAdded(s, Prepare(s, p, closure).value, AttemptKey(p.attemptId, p.generation), p, NewAttempt(p), k);
  }

  lemma NeverEnded(a: Attempt, input: DispatchInput)
    requires !a.state.Terminal? && !input.TerminalReceipt? && !input.ManualResolution? && ReduceDispatch(a, input).Ok?
    ensures !ReduceDispatch(a, input).value.state.Terminal?
  {
  }

  lemma TransitionBlocked(s: State, k: AttemptKey, id: TaskId, digest: Digest, input: DispatchInput, open: AttemptKey)
    requires LeftOpen(s, open) && TransitionAttempt(s, k, id, digest, input).Ok?
    ensures Blocks(s, TransitionAttempt(s, k, id, digest, input).value, open)
  {
    if k == open {
      NeverEnded(s.attempts[k], input);
    }
    hide ReduceDispatch, Blocks, LeftOpen;
    AttemptChanged(s, TransitionAttempt(s, k, id, digest, input).value, k, ReduceDispatch(s.attempts[k], input).value, open);
  }

  lemma ReceiptBlocked(s: State, e: Event, k: AttemptKey, id: TaskId, digest: Digest, r: Receipt, sequence: int, open: AttemptKey)
    requires LeftOpen(s, open) && RecordReceipt(s, e, k, id, digest, r, sequence).Ok?
    ensures Blocks(s, RecordReceipt(s, e, k, id, digest, r, sequence).value, open)
  {
    hide ReduceDispatch, ReceiptMatches, ProvenanceMatches, Blocks;
    var t := RecordReceipt(s, e, k, id, digest, r, sequence).value;
    if k in s.receipts {
      SameAttemptsBlock(s, t, open);
    } else {
      AttemptChanged(s, t, k, t.attempts[k], open);
    }
  }

  lemma AbortBlocked(s: State, k: AttemptKey, id: TaskId, digest: Digest, reason: string, sequence: int, open: AttemptKey, last: int)
    requires Inv(s, last) && LeftOpen(s, open) && AbortAttempt(s, k, id, digest, reason, sequence).Ok?
    ensures Blocks(s, AbortAttempt(s, k, id, digest, reason, sequence).value, open)
  {
    OpenFacts(s, open, last);
    hide Inv, HasLiveAttempt, Blocks, LeftOpen;
    var t := AbortAttempt(s, k, id, digest, reason, sequence).value;
    AttemptChanged(s, t, k, t.attempts[k], open);
  }

  lemma StepBlocked(s: State, event: Event, k: AttemptKey, last: int, sequence: int)
    requires Inv(s, last) && LeftOpen(s, k) && Step(s, event, sequence).Ok?
    ensures Blocks(s, Step(s, event, sequence).value, k)
  {
    hide Inv, LeftOpen, SameAttempts, ParseCheck, Blocks, Prepare, TransitionAttempt, RecordReceipt, AbortAttempt;
    match event.body
    case ExecutionPrepared(p) =>
      PrepareBlocked(s, p, if p.workflowId.Some? then WorkflowClosure(s, p.workflowId.value) else {}, k, last);
    case ExecutionTransition(id, attempt, generation, digest, input) =>
      TransitionBlocked(s, AttemptKey(attempt, generation), id, digest, input, k);
    case ExecutionReceipt(id, attempt, generation, digest, receipt) =>
      ReceiptBlocked(s, event, AttemptKey(attempt, generation), id, digest, receipt, sequence, k);
    case ExecutionAborted(id, attempt, generation, digest, reason) =>
      AbortBlocked(s, AttemptKey(attempt, generation), id, digest, reason, sequence, k, last);
    case _ =>
      hide Step;
      NotAboutAttempts(s, event, sequence);
      SameAttemptsBlock(s, Step(s, event, sequence).value, k);
  }

  lemma ActIsStep(s: State, event: Event, sequence: int)
    ensures Act(s, Apply(event), sequence) == Step(s, event, sequence)
  {
    hide Step;
  }

  lemma ActBlocked(s: State, a: Action, k: AttemptKey, last: int, sequence: int)
    requires Inv(s, last) && LeftOpen(s, k) && Act(s, a, sequence).Ok?
    ensures Blocks(s, Act(s, a, sequence).value, k)
  {
    hide Inv, Step, Act, LeftOpen, Blocks, SameAttempts;
    if a.Apply? {
      ActIsStep(s, a.event, sequence);
      StepBlocked(s, a.event, k, last, sequence);
    } else {
      LegacyLeaves(s, a, sequence);
      SameAttemptsBlock(s, Act(s, a, sequence).value, k);
    }
  }

  /**
   * An attempt that its recorded receipt left open stays open for good, and so no attempt is ever
   * prepared for its task again.
   */
  lemma {:induction false} OpenForGood(r: Run, i: nat, j: nat, k: AttemptKey)
    requires ValidRun(r) && i <= j < |r.states| && LeftOpen(r.states[i], k)
    ensures Blocks(r.states[i], r.states[j], k)
    decreases j
  {
    hide ValidRun, Inv, Act;
    RunLength(r);
    if i < j {
      hide Blocks, LeftOpen;
      OpenForGood(r, i, j - 1, k);
      StillOpen(r.states[i], r.states[j - 1], k);
      RunInv(r, j - 1);
      RunStep(r, j - 1);
      ActBlocked(r.states[j - 1], r.actions[j - 1], k, Before(r, j - 1), r.sequences[j - 1]);
      BlocksTransitive(r.states[i], r.states[j - 1], r.states[j], k);
    }
  }

  lemma StillOpen(s: State, t: State, k: AttemptKey)
    requires LeftOpen(s, k) && Blocks(s, t, k)
    ensures LeftOpen(t, k)
  {
  }

  lemma BlocksTransitive(s: State, t: State, u: State, k: AttemptKey)
    requires LeftOpen(s, k) && LeftOpen(t, k) && Blocks(s, t, k) && Blocks(t, u, k)
    ensures Blocks(s, u, k)
  {
  }
}
