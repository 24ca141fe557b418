/** What an adopted plan demands of its source task, and who proposed it (packages/domain/src/execution.ts). */
module ExecutionAdoptions {
  import opened Identity
  import opened Dependencies
  import opened Plans
  import opened PlanDerivation
  import opened Execution
  import opened ExecutionSafety
  import opened ExecutionRuns
  import opened ExecutionPlans
  import opened ExecutionEffects
  import opened ExecutionLaws
  import opened ExecutionInvariants

  // ----- Planners -----

  /**
   * In every state of every run, the plan on record for a planner was proposed by a planner task that
   * succeeded on the source task, under the contract that the source task has.
   */
  lemma {:induction false} PlannersSucceeded(r: Run, i: nat, planner: TaskId)
    requires ValidRun(r) && i < |r.states| && planner in r.states[i].plansByPlanner
    ensures PlannedBy(r.states[i], planner)
  {
    hide ValidRun, Act, PlannedBy, Grows, PlansGrow, PlanInv;
    RunLength(r);
    assert i > 0;
    RunStep(r, i - 1);
    RunGrows(r, i - 1, i);
    RunPlans(r, i);
    var s, t := r.states[i - 1], r.states[i];
    if planner in s.plansByPlanner {
      PlannersSucceeded(r, i - 1, planner);
      KeptWorkflows(s, t, Before(r, i - 1));
      PlannersKept(s, t, planner);
      StillPlannedBy(s, t, planner);
    } else {
      NewPlanner(s, r.actions[i - 1], r.sequences[i - 1], planner);
    }
  }

  lemma PlannersKept(s: State, t: State, planner: TaskId)
    requires PlansGrow(s, t) && planner in s.plansByPlanner
    ensures planner in t.plansByPlanner && t.plansByPlanner[planner] == s.plansByPlanner[planner] && Extends(s.plans, t.plans)
  {
  }

  // ----- Adopted children -----

  /** What is on record for an adopted plan: the ids of its children, in the order of its items. */
  predicate ChildrenOf(p: Plan, ids: seq<TaskId>) {
    |ids| == |p.tasks| && forall n :: 0 <= n < |ids| ==> ids[n] == PlanChild(p.planDigest, p.tasks[n].key)
  }

  lemma NewAdoption(s: State, a: Action, sequence: int, d: Digest)
    requires Act(s, a, sequence).Ok? && d in Act(s, a, sequence).value.adopted && d !in s.adopted
    requires PlanInv(s)
    ensures d in s.plans && ChildrenOf(s.plans[d], Act(s, a, sequence).value.adopted[d])
  {
    hide Step, Act, MayAdopt, AdoptedInto, GraphFrame, AttemptFrame, PlanInv, ChildrenOf;
    PlansAreNamed(s);
    if a.Apply? {
      AppliedStep(s, a, sequence);
      EveryEventFrames(s, a.event, sequence);
      TaskPlanAdoptedEffect(s, a.event, sequence);
      IdsAdopted(s, Step(s, a.event, sequence).value, s.plans[a.event.body.planDigest]);
    } else {
      LegacyFrames(s, a, sequence);
    }
  }

  lemma IdsAdopted(s: State, t: State, p: Plan)
    ensures AdoptedInto(s, t, p) ==>
              p.planDigest in t.adopted && t.adopted == s.adopted[p.planDigest := t.adopted[p.planDigest]] && ChildrenOf(p, t.adopted[p.planDigest])
  {
    DerivedContracts(p);
    hide Adopted, Added;
  }

  lemma PlansAreNamed(s: State)
    requires PlanInv(s)
    ensures forall d :: d in s.plans ==> s.plans[d].planDigest == d
  {
    hide ParsedPlan, PlanPresent;
  }

  lemma AdoptionsKept(s: State, t: State, d: Digest)
    requires PlansGrow(s, t) && PlanInv(s) && d in s.adopted
    ensures d in t.adopted && t.adopted[d] == s.adopted[d] && d in s.plans && d in t.plans && t.plans[d] == s.plans[d]
  {
    hide ParsedPlan, PlanPresent;
  }

  lemma {:induction false} AdoptedChildren(r: Run, i: nat, d: Digest)
    requires ValidRun(r) && i < |r.states| && d in r.states[i].adopted
    ensures d in r.states[i].plans && ChildrenOf(r.states[i].plans[d], r.states[i].adopted[d])
  {
    hide ValidRun, Act, PlanInv, PlansGrow, ChildrenOf;
    RunLength(r);
    assert i > 0;
    RunStep(r, i - 1);
    RunPlans(r, i - 1);
    RunPlans(r, i);
    var s, t := r.states[i - 1], r.states[i];
    if d in s.adopted {
      AdoptedChildren(r, i - 1, d);
      AdoptionsKept(s, t, d);
    } else {
      NewAdoption(s, r.actions[i - 1], r.sequences[i - 1], d);
      PlanKept(s, t, d);
    }
  }

  lemma PlanKept(s: State, t: State, d: Digest)
    requires PlansGrow(s, t) && d in s.plans
    ensures d in t.plans && t.plans[d] == s.plans[d]
  {
  }

  // ----- Children before their source -----

  lemma FewerEdgesAcyclic(fewer: seq<Edge>, edges: seq<Edge>)
    requires Acyclic(edges) && forall e :: e in fewer ==> e in edges
    ensures Acyclic(fewer)
  {
    if p :| IsCycle(fewer, p) {
      forall i | 0 <= i < |p| - 1 ensures Link(edges, p[i], p[i + 1]) {
        assert Link(fewer, p[i], p[i + 1]);
      }
      assert IsCycle(edges, p);
    }
  }

  /** A path along derived edges is a chain of edges that require success. */
  lemma DerivedChain(p: Plan, edges: seq<Edge>, q: seq<TaskId>)
    requires IsPath(Adopted(p).edges, q) && forall e :: e in Adopted(p).edges ==> e in edges
    ensures SuccessChain(edges, q)
  {
    hide Adopted;
    forall i | 0 <= i < |q| - 1 ensures SuccessLink(edges, q[i], q[i + 1]) {
      assert Link(Adopted(p).edges, q[i], q[i + 1]);
      var e :| e in Adopted(p).edges && e.sourceTaskId == q[i] && e.dependentTaskId == q[i + 1];
      DerivedEdges(p, e);
      assert e in edges && NeedsSuccess(e);
    }
  }

  lemma ChainToSource(p: Plan, edges: seq<Edge>, child: TaskId) returns (q: seq<TaskId>)
    requires ParsedPlan(p) && Acyclic(edges) && child in Children(p) && forall e :: e in Adopted(p).edges ==> e in edges
    ensures q != [] && q[0] == child && q[|q| - 1] == p.sourceTaskId && SuccessChain(edges, q)
  {
    hide ParsedPlan, Adopted, Acyclic;
    FewerEdgesAcyclic(Adopted(p).edges, edges);
    ChildReachesSource(p, Adopted(p).edges, child);
    q :| Connects(Adopted(p).edges, q, child, p.sourceTaskId);
    DerivedChain(p, edges, q);
  }

  lemma SourceIsNoChild(p: Plan, child: TaskId)
    requires ParsedPlan(p) && child in Children(p)
    ensures child != p.sourceTaskId
  {
    var t :| t in p.tasks && Child(p, t.key) == child;
    assert p.planDigest == PlanDigest(p.sourceTaskId, p.sourceContractDigest, p.tasks);
    assert child == PlanChild(p.planDigest, t.key);
    assert p.planDigest.sourceTaskId < p.planDigest && child.plan < child;
  }

  lemma ListedChild(p: Plan, ids: seq<TaskId>, child: TaskId)
    requires ChildrenOf(p, ids) && child in ids
    ensures child in Children(p)
  {
    var n :| 0 <= n < |ids| && ids[n] == child;
    assert p.tasks[n] in p.tasks && Child(p, p.tasks[n].key) == child;
  }

  /**
   * If a plan of a task was ever adopted and an attempt of the task was prepared in some later state,
   * every child on record for the plan has a recorded resolution there, and it is a success.
   */
  lemma ChildrenSucceedFirst(r: Run, i: nat, j: nat, d: Digest, k: AttemptKey, child: TaskId)
    requires ValidRun(r) && i <= j < |r.states| && d in r.states[i].adopted && child in r.states[i].adopted[d]
    requires d in r.states[i].plans && k in r.states[j].prepared && r.states[j].prepared[k].taskId == r.states[i].plans[d].sourceTaskId
    ensures child in r.states[j].resolutions && r.states[j].resolutions[child].resolution == Succeeded
  {
    hide ValidRun, PlanInv, PlansGrow, ParsedPlan, Adopted, ChildrenOf, Acyclic, Inv, Children, SuccessChain;
    var s, t := r.states[i], r.states[j];
    RunPlans(r, i);
    RunPlans(r, j);
    RunPlansGrow(r, i, j);
    RunInv(r, j);
    AdoptionsKept(s, t, d);
    AdoptedChildren(r, j, d);
    PresentNow(t, d);
    AcyclicNow(t, Before(r, j));
    ListedChild(t.plans[d], t.adopted[d], child);
    EdgesPresent(t, d);
    var q := ChainToSource(t.plans[d], t.edges, child);
    SourceIsNoChild(t.plans[d], child);
    SuccessChainSucceeded(r, j, k, q, 0);
  }

  lemma EdgesPresent(s: State, d: Digest)
    requires d in s.plans && PlanPresent(s.contracts, s.edges, s.plans[d])
    ensures forall e :: e in Adopted(s.plans[d]).edges ==> e in s.edges
  {
    hide Adopted;
  }
}
