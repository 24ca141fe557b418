/** What the records of a run say of each other: launches, receipts, joins and planners (packages/domain/src/execution.ts). */
module ExecutionInvariants {
  import opened Wrappers
  import opened Identity
  import opened Dependencies
  import opened Lists
  import opened Attempts
  import opened Plans
  import opened Execution
  import opened ExecutionSafety
  import opened ExecutionRuns
  import opened ExecutionEffects
  import opened ExecutionLaws

  // ----- One running workflow for each target -----

  /** Two running workflows have different targets. */
  predicate OneRunning(workflows: map<string, Workflow>) {
    forall v, w :: v in workflows && w in workflows && SameRunningTarget(workflows[v], workflows[w]) ==> v == w
  }

  predicate SameRunningTarget(v: Workflow, w: Workflow) {
    v.state == Running && w.state == Running && v.authorization.targetTaskId == w.authorization.targetTaskId
  }

  /** A workflow started under another expires no later. */
  predicate ParentsOutlive(workflows: map<string, Workflow>) {
    forall w :: w in workflows && workflows[w].authorization.parentWorkflowId.Some? ==>
                  var parent := workflows[w].authorization.parentWorkflowId.value;
                  parent in workflows && workflows[w].authorization.expiresAt <= workflows[parent].authorization.expiresAt
  }

  predicate StartsAlone(s: State, u: Workflow) {
    && (forall v :: v in s.workflows && s.workflows[v].state == Running ==> s.workflows[v].authorization.targetTaskId != u.authorization.targetTaskId)
    && (u.authorization.parentWorkflowId.Some? ==>
          var parent := u.authorization.parentWorkflowId.value;
          parent in s.workflows && u.authorization.expiresAt <= s.workflows[parent].authorization.expiresAt)
  }

  lemma NewWorkflow(s: State, a: Action, sequence: int, w: string)
    requires Act(s, a, sequence).Ok? && w in Act(s, a, sequence).value.workflows && w !in s.workflows
    ensures StartsAlone(s, Act(s, a, sequence).value.workflows[w])
    ensures Act(s, a, sequence).value.workflows == s.workflows[w := Act(s, a, sequence).value.workflows[w]]
  {
    hide Act, Step, WellShaped, StillContract, SourceFits, TargetGraph;
    ActionMovesWorkflows(s, a, sequence);
    AppliedStep(s, a, sequence);
    WorkflowStartedEffect(s, a.event, sequence);
  }

  lemma WorkflowsKeep(s: State, a: Action, sequence: int)
    requires Act(s, a, sequence).Ok? && OneRunning(s.workflows) && ParentsOutlive(s.workflows)
    ensures OneRunning(Act(s, a, sequence).value.workflows) && ParentsOutlive(Act(s, a, sequence).value.workflows)
  {
    var t := Act(s, a, sequence).value;
    ActionMovesWorkflows(s, a, sequence);
    hide Act, Step;
    hide WorkflowsMove, OneRunning, ParentsOutlive, StartsAlone;
    if w :| w in t.workflows && w !in s.workflows {
      NewWorkflow(s, a, sequence, w);
      AddedWorkflow(s, w, t.workflows[w]);
    } else {
      assert t.workflows.Keys == s.workflows.Keys by { KeysStay(s, t, a); }
      OldWorkflows(s, t, a);
    }
  }

  lemma KeysStay(s: State, t: State, a: Action)
    requires WorkflowsMove(s, t, a)
    ensures s.workflows.Keys <= t.workflows.Keys
  {
  }

  lemma AddedWorkflow(s: State, w: string, u: Workflow)
    requires OneRunning(s.workflows) && ParentsOutlive(s.workflows) && w !in s.workflows && StartsAlone(s, u)
    ensures OneRunning(s.workflows[w := u]) && ParentsOutlive(s.workflows[w := u])
  {
  }

  lemma OldWorkflows(s: State, t: State, a: Action)
    requires WorkflowsMove(s, t, a) && t.workflows.Keys == s.workflows.Keys
    requires OneRunning(s.workflows) && ParentsOutlive(s.workflows)
    ensures OneRunning(t.workflows) && ParentsOutlive(t.workflows)
  {
    forall w | w in t.workflows
      ensures t.workflows[w].state == Running ==> s.workflows[w].state == Running
      ensures SameTerms(s.workflows[w].authorization, t.workflows[w].authorization)
    {
      assert WorkflowMoves(s.workflows[w], t.workflows[w], a, w);
    }
    hide WorkflowsMove, WorkflowMoves;
  }

  predicate SameTerms(a: Authorization, b: Authorization) {
    b.targetTaskId == a.targetTaskId && b.parentWorkflowId == a.parentWorkflowId && b.expiresAt == a.expiresAt
  }

  lemma {:induction false} WorkflowsApart(r: Run, i: nat)
    requires ValidRun(r) && i < |r.states|
    ensures OneRunning(r.states[i].workflows) && ParentsOutlive(r.states[i].workflows)
  {
    hide ValidRun, Act, OneRunning, ParentsOutlive;
    RunLength(r);
    if i == 0 {
      NoWorkflows();
    } else {
      WorkflowsApart(r, i - 1);
      RunStep(r, i - 1);
      WorkflowsKeep(r.states[i - 1], r.actions[i - 1], r.sequences[i - 1]);
    }
  }

  lemma NoWorkflows()
    ensures OneRunning(EMPTY_STATE.workflows) && ParentsOutlive(EMPTY_STATE.workflows)
  {
  }

  // ----- Launches in time -----

  /** The launch was within the time of its authorization, and of the one above it. */
  predicate InTime(p: Prepared, workflows: map<string, Workflow>)
    requires p.workflowId.Some?
  {
    && p.workflowId.value in workflows
    && var a := workflows[p.workflowId.value].authorization;
       && p.authorityTime < a.expiresAt
       && (a.parentWorkflowId.Some? ==>
             a.parentWorkflowId.value in workflows && p.authorityTime < workflows[a.parentWorkflowId.value].authorization.expiresAt)
  }

  lemma LaunchInTime(s: State, p: Prepared)
    requires p.workflowId.Some? && WorkflowLaunches(s, p)
    ensures InTime(p, s.workflows)
  {
    hide NotCancelled, StillContract, TargetGraph;
  }

  lemma StillInTime(s: State, t: State, p: Prepared, bound: int)
    requires p.workflowId.Some? && InTime(p, s.workflows) && Grows(s, t, bound)
    ensures InTime(p, t.workflows)
  {
    KeptWorkflows(s, t, bound);
    hide Grows;
    var a := s.workflows[p.workflowId.value].authorization;
    assert SameAuthority(s.workflows[p.workflowId.value], t.workflows[p.workflowId.value]);
    if a.parentWorkflowId.Some? {
      assert SameAuthority(s.workflows[a.parentWorkflowId.value], t.workflows[a.parentWorkflowId.value]);
    }
  }

  lemma KeptWorkflows(s: State, t: State, bound: int)
    requires Grows(s, t, bound)
    ensures WorkflowsKept(s.workflows, t.workflows) && Extends(s.prepared, t.prepared) && Extends(s.receipts, t.receipts)
    ensures Extends(s.resolutions, t.resolutions) && Extends(s.contracts, t.contracts) && AttemptsEvolve(s.attempts, t.attempts, bound)
    ensures LifecyclesAdvance(s.lifecycles, t.lifecycles)
  {
  }

  /** Nothing was ever prepared under a workflow whose authorization, or whose parent's, had expired. */
  lemma {:induction false} LaunchedInTime(r: Run, i: nat, k: AttemptKey)
    requires ValidRun(r) && i < |r.states| && k in r.states[i].prepared && r.states[i].prepared[k].workflowId.Some?
    ensures InTime(r.states[i].prepared[k], r.states[i].workflows)
  {
    hide ValidRun, Act, InTime, WorkflowLaunches, SelfConsistent, JoinFreezes;
    RunLength(r);
    assert i > 0;
    RunStep(r, i - 1);
    RunGrows(r, i - 1, i);
    var s, t := r.states[i - 1], r.states[i];
    if k in s.prepared {
      LaunchedInTime(r, i - 1, k);
      SamePrepared(s, t, Before(r, i - 1), k);
      StillInTime(s, t, t.prepared[k], Before(r, i - 1));
    } else {
      PreparedBy(s, r.actions[i - 1], r.sequences[i - 1], k);
      LaunchInTime(s, t.prepared[k]);
    }
  }

  // ----- Attempts and their receipts -----

  /** An attempt carries the digests of the binding it was prepared with, under its own key. */
  predicate Bound(k: AttemptKey, p: Prepared, a: Attempt) {
    && k == AttemptKey(p.attemptId, p.generation)
    && a.bindingDigest == BindingDigest(p.binding) && a.idempotencyKeyDigest == IdempotencyKeyDigest(p.binding.providerIdempotencyKey)
  }

  /** The receipt is of the attempt as it was prepared, and a success was observed on the prepared profile. */
  predicate ReceiptFits(p: Prepared, r: Receipt) {
    && r.taskId == p.taskId && r.attemptId == p.attemptId && r.generation == p.generation
    && r.attemptContextBindingDigest == BindingDigest(p.binding)
    && r.providerIdempotencyKeyDigest == IdempotencyKeyDigest(p.binding.providerIdempotencyKey)
    && r.producerPrincipalId == p.binding.allowedProducerPrincipalId && r.producerGrantDigest == p.binding.allowedProducerGrantDigest
    && r.provenance.profileDigest == ProfileDigest(p.profile)
    && (r.outcome == Succeeded ==>
          && r.outputDigest.Some?
          && r.provenance.observedModelId == Some(p.profile.modelId) && r.provenance.observedProviderId == Some(p.profile.providerId)
          && r.provenance.observedHostId == Some(p.profile.hostId) && r.provenance.observedHostVersion == Some(p.profile.hostVersion))
  }

  lemma NewAttempt(s: State, a: Action, sequence: int, k: AttemptKey)
    requires Act(s, a, sequence).Ok? && k in Act(s, a, sequence).value.prepared && k !in s.prepared
    ensures k in Act(s, a, sequence).value.attempts
    ensures Bound(k, Act(s, a, sequence).value.prepared[k], Act(s, a, sequence).value.attempts[k])
    ensures Act(s, a, sequence).value.prepared[k].profileDigest == ProfileDigest(Act(s, a, sequence).value.prepared[k].profile)
  {
    hide Step, Act, WorkflowLaunches, JoinFreezes, NoneOpen;
    PreparedBy(s, a, sequence, k);
    AppliedStep(s, a, sequence);
    ExecutionPreparedEffect(s, a.event, sequence);
  }

  /** In every state of every run, attempts are bound as they were prepared. */
  lemma {:induction false} AttemptsBound(r: Run, i: nat, k: AttemptKey)
    requires ValidRun(r) && i < |r.states| && k in r.states[i].prepared
    ensures k in r.states[i].attempts && Bound(k, r.states[i].prepared[k], r.states[i].attempts[k])
    ensures r.states[i].prepared[k].profileDigest == ProfileDigest(r.states[i].prepared[k].profile)
  {
    hide ValidRun, Act, Bound;
    RunLength(r);
    assert i > 0;
    RunStep(r, i - 1);
    RunGrows(r, i - 1, i);
    var s, t := r.states[i - 1], r.states[i];
    if k in s.prepared {
      AttemptsBound(r, i - 1, k);
      SamePrepared(s, t, Before(r, i - 1), k);
      EvolvedAttempt(s, t, Before(r, i - 1), k);
      StillBound(k, s.prepared[k], s.attempts[k], t.attempts[k], Before(r, i - 1));
    } else {
      NewAttempt(s, r.actions[i - 1], r.sequences[i - 1], k);
    }
  }

  lemma StillBound(k: AttemptKey, p: Prepared, a: Attempt, b: Attempt, bound: int)
    requires Bound(k, p, a) && Evolves(a, b, bound)
    ensures Bound(k, p, b)
  {
  }

  lemma NewReceipt(s: State, a: Action, sequence: int, k: AttemptKey)
    requires Act(s, a, sequence).Ok? && k in Act(s, a, sequence).value.receipts && k !in s.receipts
    ensures k in s.prepared && k in s.attempts
    ensures Bound(k, s.prepared[k], s.attempts[k]) && s.prepared[k].profileDigest == ProfileDigest(s.prepared[k].profile)
            ==> ReceiptFits(s.prepared[k], Act(s, a, sequence).value.receipts[k])
  {
    hide Step, Act, ReduceDispatch, GraphFrame, PlanFrame;
    if a.Apply? {
      AppliedStep(s, a, sequence);
      EveryEventFrames(s, a.event, sequence);
      ExecutionReceiptEffect(s, a.event, sequence);
    } else {
      LegacyFrames(s, a, sequence);
    }
  }

  /** Every receipt on record is of its attempt as it was prepared. */
  lemma {:induction false} ReceiptsFit(r: Run, i: nat, k: AttemptKey)
    requires ValidRun(r) && i < |r.states| && k in r.states[i].receipts
    ensures k in r.states[i].prepared && ReceiptFits(r.states[i].prepared[k], r.states[i].receipts[k])
  {
    hide ValidRun, Act, Bound, ReceiptFits;
    RunLength(r);
    assert i > 0;
    RunStep(r, i - 1);
    RunGrows(r, i - 1, i);
    var s, t := r.states[i - 1], r.states[i];
    KeptWorkflows(s, t, Before(r, i - 1));
    hide Grows;
    if k in s.receipts {
      ReceiptsFit(r, i - 1, k);
    } else {
      NewReceipt(s, r.actions[i - 1], r.sequences[i - 1], k);
      AttemptsBound(r, i - 1, k);
    }
  }

  // ----- Joins -----

  /** The join has exactly one entry for each edge into the task, with the generation that won its source. */
  predicate JoinExact(p: Prepared, edges: seq<Edge>, resolutions: map<TaskId, TaskResolution>) {
    && (forall e :: e in edges && e.dependentTaskId == p.taskId ==> e.sourceTaskId in resolutions && Frozen(e, resolutions) in p.join.dependencies)
    && (forall d :: d in p.join.dependencies ==> FrozenFrom(d, p.taskId, edges, resolutions))
    && forall i, j :: 0 <= i < j < |p.join.dependencies| ==> p.join.dependencies[i].edgeId != p.join.dependencies[j].edgeId
  }

  predicate FrozenFrom(d: FrozenDependency, id: TaskId, edges: seq<Edge>, resolutions: map<TaskId, TaskResolution>) {
    exists e :: e in edges && e.dependentTaskId == id && e.sourceTaskId in resolutions && d == Frozen(e, resolutions)
  }

  predicate IdsDiffer(edges: seq<Edge>) {
    forall i, j :: 0 <= i < j < |edges| ==> edges[i].edgeId != edges[j].edgeId
  }

  lemma {:induction false} IntoDistinct(edges: seq<Edge>, id: TaskId)
    requires IdsDiffer(edges)
    ensures IdsDiffer(EdgesInto(edges, id))
  {
    if edges != [] {
      var front, last := edges[..|edges| - 1], edges[|edges| - 1];
      assert forall i :: 0 <= i < |front| ==> edges[i] == front[i];
      IntoDistinct(front, id);
      EdgesIntoAre(front, id);
      var into := EdgesInto(front, id);
      forall i | 0 <= i < |into| ensures into[i].edgeId != last.edgeId {
        assert into[i] in into;
        var n :| 0 <= n < |front| && front[n] == into[i];
      }
      assert EdgesInto(edges, id) == if last.dependentTaskId == id then into + [last] else into;
    }
  }

  function EdgeIds(edges: seq<Edge>): seq<EdgeId> {
    seq(|edges|, i requires 0 <= i < |edges| => edges[i].edgeId)
  }

  function FrozenIds(ds: seq<FrozenDependency>): seq<EdgeId> {
    seq(|ds|, i requires 0 <= i < |ds| => ds[i].edgeId)
  }

  lemma SameSize<T>(a: set<T>, b: set<T>)
    requires a <= b && |a| == |b|
    ensures a == b
  {
    assert b == a + (b - a);
    assert |b| == |a| + |b - a|;
  }

  /** The ids of the edges into a task are exactly those that its join freezes. */
  lemma SameIds(s: State, id: TaskId, join: Join)
    requires JoinFreezes(s, id, join)
    requires IdsDiffer(s.edges)
    requires forall i, j :: 0 <= i < j < |join.dependencies| ==> join.dependencies[i].edgeId != join.dependencies[j].edgeId
    ensures Elements(EdgeIds(EdgesInto(s.edges, id))) == Elements(FrozenIds(join.dependencies))
  {
    var into, ds := EdgesInto(s.edges, id), join.dependencies;
    EdgesIntoAre(s.edges, id);
    IntoDistinct(s.edges, id);
    hide EdgesInto;
    DistinctCount(EdgeIds(into));
    DistinctCount(FrozenIds(ds));
    forall x | x in Elements(EdgeIds(into)) ensures x in Elements(FrozenIds(ds)) {
      var i :| 0 <= i < |into| && EdgeIds(into)[i] == x;
      assert into[i] in into;
      var n :| 0 <= n < |ds| && ds[n] == Frozen(into[i], s.resolutions);
      assert FrozenIds(ds)[n] == x;
    }
    SameSize(Elements(EdgeIds(into)), Elements(FrozenIds(ds)));
  }

  /** A join that freezes every edge and has as many entries as there are edges has no other entry. */
  lemma JoinIsExact(s: State, p: Prepared)
    requires JoinFreezes(s, p.taskId, p.join)
    requires IdsDiffer(s.edges)
    requires forall i, j :: 0 <= i < j < |p.join.dependencies| ==> p.join.dependencies[i].edgeId != p.join.dependencies[j].edgeId
    ensures JoinExact(p, s.edges, s.resolutions)
  {
    var into, ds := EdgesInto(s.edges, p.taskId), p.join.dependencies;
    EdgesIntoAre(s.edges, p.taskId);
    SameIds(s, p.taskId, p.join);
    hide EdgesInto;
    forall n | 0 <= n < |ds| ensures FrozenFrom(ds[n], p.taskId, s.edges, s.resolutions) {
      assert FrozenIds(ds)[n] in Elements(FrozenIds(ds));
      var i :| 0 <= i < |into| && EdgeIds(into)[i] == ds[n].edgeId;
      assert into[i] in into;
      var m :| 0 <= m < |ds| && ds[m] == Frozen(into[i], s.resolutions);
      assert m == n;
    }
  }

  /** An adoption adds no edge into a task that was ever prepared. */
  lemma AdoptedEdgesElsewhere(s: State, id: TaskId, p: Plan, last: int, k: AttemptKey, e: Edge)
    requires Inv(s, last) && MayAdopt(s, id, p) && p.sourceTaskId == id && k in s.prepared
    requires e in Adopted(p).edges
    ensures e.dependentTaskId != s.prepared[k].taskId
  {
    NewIdsMeans(s, Adopted(p).contracts);
    hide ParsedPlan, Adopted, FreshContracts, NewIds, WellFormedGraph, Acyclic, TaskClosure, NoneAdopted, StillContract;
    hide GraphInv, OneLiveAttempt, AbortInv, DependenciesMet, ResolutionInv, WorkflowInv, FrozenGraphs, OnlyAuthorised;
    HasLifecycles(s, last);
    AdoptionUnprepared(s, p, last);
  }

  lemma HasLifecycles(s: State, last: int)
    requires Inv(s, last)
    ensures s.lifecycles.Keys == s.contracts.Keys && IdsDiffer(s.edges) && AttemptInv(s.lifecycles, s.prepared, s.attempts, last)
  {
  }

  lemma AddedEdgeElsewhere(s: State, e: Event, sequence: int, k: AttemptKey)
    requires Step(s, e, sequence).Ok? && e.body.DependencyAdded? && k in s.prepared
    ensures Step(s, e, sequence).value.edges == s.edges + [e.body.edge] && e.body.edge.dependentTaskId != s.prepared[k].taskId
  {
    hide Step, WellFormedGraph, Acyclic, TaskClosure;
    DependencyAddedEffect(s, e, sequence);
  }

  lemma AdoptionEdges(s: State, e: Event, sequence: int)
    requires Step(s, e, sequence).Ok? && e.body.PlanAdopted?
    ensures var (id, d, t) := (e.body.taskId, e.body.planDigest, Step(s, e, sequence).value);
            || t.edges == s.edges
            || (d in s.plans && s.plans[d].sourceTaskId == id && MayAdopt(s, id, s.plans[d])
                && t.edges == s.edges + Adopted(s.plans[d]).edges)
  {
    hide Step, MayAdopt, Added, Adopted;
    TaskPlanAdoptedEffect(s, e, sequence);
  }

  lemma NoNewEdges(s: State, a: Action, last: int, sequence: int, k: AttemptKey, e: Edge)
    requires Inv(s, last) && Act(s, a, sequence).Ok? && k in s.prepared
    requires e in Act(s, a, sequence).value.edges && e.dependentTaskId == s.prepared[k].taskId
    ensures e in s.edges
  {
    hide Inv, Act, Step, MayAdopt, Adopted, AttemptFrame, PlanFrame;
    if a.Apply? {
      AppliedStep(s, a, sequence);
      EveryEventFrames(s, a.event, sequence);
      if a.event.body.DependencyAdded? {
        AddedEdgeElsewhere(s, a.event, sequence, k);
      } else if a.event.body.PlanAdopted? {
        AdoptionEdges(s, a.event, sequence);
        if e !in s.edges {
          AdoptedEdgesElsewhere(s, a.event.body.taskId, s.plans[a.event.body.planDigest], last, k, e);
        }
      }
    } else {
      LegacyFrames(s, a, sequence);
    }
  }

  lemma JoinStays(p: Prepared, s: State, t: State)
    requires JoinExact(p, s.edges, s.resolutions) && Extends(s.resolutions, t.resolutions) && s.edges <= t.edges
    requires forall e :: e in t.edges && e.dependentTaskId == p.taskId ==> e in s.edges
    ensures JoinExact(p, t.edges, t.resolutions)
  {
    forall e | e in s.edges && e.sourceTaskId in s.resolutions
      ensures e.sourceTaskId in t.resolutions && Frozen(e, t.resolutions) == Frozen(e, s.resolutions) && e in t.edges
    {
      var i :| 0 <= i < |s.edges| && s.edges[i] == e;
      assert t.edges[i] == e;
    }
    forall d | d in p.join.dependencies ensures FrozenFrom(d, p.taskId, t.edges, t.resolutions) {
      assert FrozenFrom(d, p.taskId, s.edges, s.resolutions);
    }
    hide Frozen;
  }

  lemma EdgesGrow(s: State, t: State, bound: int)
    requires Grows(s, t, bound)
    ensures s.edges <= t.edges && Extends(s.resolutions, t.resolutions)
  {
  }

  lemma NewJoin(s: State, a: Action, last: int, sequence: int, k: AttemptKey)
    requires Inv(s, last) && Act(s, a, sequence).Ok? && k in Act(s, a, sequence).value.prepared && k !in s.prepared
    ensures JoinExact(Act(s, a, sequence).value.prepared[k], Act(s, a, sequence).value.edges, Act(s, a, sequence).value.resolutions)
  {
    hide Act, Step, Inv, WorkflowLaunches, JoinFreezes, JoinExact, NoneOpen, PlanFrame, AttemptFrame;
    HasLifecycles(s, last);
    PreparedBy(s, a, sequence, k);
    AppliedStep(s, a, sequence);
    EveryEventFrames(s, a.event, sequence);
    JoinIsExact(s, a.event.body.prepared);
  }

  /**
   * In every state of every run the join of a prepared attempt has exactly one entry for each edge
   * that leads into its task now, with the source, the type, and the generation that won the source.
   */
  lemma {:induction false} JoinsStayExact(r: Run, i: nat, k: AttemptKey)
    requires ValidRun(r) && i < |r.states| && k in r.states[i].prepared
    ensures JoinExact(r.states[i].prepared[k], r.states[i].edges, r.states[i].resolutions)
  {
    hide ValidRun, Act, Inv, JoinExact;
    RunLength(r);
    assert i > 0;
    RunStep(r, i - 1);
    RunInv(r, i - 1);
    RunGrows(r, i - 1, i);
    var s, t := r.states[i - 1], r.states[i];
    EdgesGrow(s, t, Before(r, i - 1));
    if k in s.prepared {
      JoinsStayExact(r, i - 1, k);
      SamePrepared(s, t, Before(r, i - 1), k);
      hide Grows;
      forall e | e in t.edges && e.dependentTaskId == s.prepared[k].taskId ensures e in s.edges {
        NoNewEdges(s, r.actions[i - 1], Before(r, i - 1), r.sequences[i - 1], k, e);
      }
      JoinStays(s.prepared[k], s, t);
    } else {
      hide Grows;
      NewJoin(s, r.actions[i - 1], Before(r, i - 1), r.sequences[i - 1], k);
    }
  }

  /** Every edge of a run is between two known tasks and allows outcomes exactly if it requires one of them; ids differ. */
  lemma EdgesAreValid(r: Run, i: nat, e: Edge)
    requires ValidRun(r) && i < |r.states| && e in r.states[i].edges
    ensures e.sourceTaskId in r.states[i].contracts && e.dependentTaskId in r.states[i].contracts && e.sourceTaskId != e.dependentTaskId
    ensures e.edgeId != EdgeNamed("") && e.sourceTaskId != Named("") && e.dependentTaskId != Named("")
    ensures e.edgeType == RequiresOutcome <==> e.allowedOutcomes.Some?
    ensures e.allowedOutcomes.Some? ==> e.allowedOutcomes.value != [] && Distinct(e.allowedOutcomes.value)
    ensures forall f :: f in r.states[i].edges && f.edgeId == e.edgeId ==> f == e
  {
    hide ValidRun;
    RunInv(r, i);
    hide AttemptInv, OneLiveAttempt, AbortInv, DependenciesMet, ResolutionInv, WorkflowInv, FrozenGraphs, OnlyAuthorised, Acyclic;
  }

  // ----- Planners -----

  /** The plan on record for a planner: the planner succeeded on the source task, whose contract is that of the plan. */
  predicate PlannedBy(s: State, planner: TaskId)
    requires planner in s.plansByPlanner
  {
    && s.plansByPlanner[planner] in s.plans && planner in s.contracts && planner in s.lifecycles
    && var p := s.plans[s.plansByPlanner[planner]];
       && p.sourceTaskId in s.contracts && p.sourceContractDigest == ContractDigest(s.contracts[p.sourceTaskId])
       && s.contracts[planner].kind == Planner && s.contracts[planner].sourceTaskId == Some(s.contracts[p.sourceTaskId].taskId)
       && s.lifecycles[planner] == Resolved(Succeeded)
  }

  lemma NewPlanner(s: State, a: Action, sequence: int, planner: TaskId)
    requires Act(s, a, sequence).Ok? && planner in Act(s, a, sequence).value.plansByPlanner && planner !in s.plansByPlanner
    ensures PlannedBy(Act(s, a, sequence).value, planner)
  {
    hide Step, Act, ParsedPlan, AttemptFrame;
    if a.Apply? {
      AppliedStep(s, a, sequence);
      EveryEventFrames(s, a.event, sequence);
      TaskPlanProposedEffect(s, a.event, sequence);
    } else {
      LegacyFrames(s, a, sequence);
    }
  }

  lemma StillPlannedBy(s: State, t: State, planner: TaskId)
    requires planner in s.plansByPlanner && PlannedBy(s, planner)
    requires planner in t.plansByPlanner && t.plansByPlanner[planner] == s.plansByPlanner[planner]
    requires Extends(s.plans, t.plans) && Extends(s.contracts, t.contracts) && LifecyclesAdvance(s.lifecycles, t.lifecycles)
    ensures PlannedBy(t, planner)
  {
  }
}
