/** Theorems about whole runs of the task execution reducer (packages/domain/src/execution.ts). */
module ExecutionRuns {
  import opened Wrappers
  import opened Identity
  import opened Dependencies
  import opened Lists
  import opened Attempts
  import opened Plans
  import opened Execution
  import opened ExecutionSafety

  // ----- Runs -----

  /**
   * What changes the projection on a run stream: an execution event, or one of the two older event
   * kinds that packages/domain/src/receipt.ts applies to the projection directly.
   */
  datatype Action = Apply(event: Event) | LegacyCreate(contract: Contract) | LegacyResolve(taskId: TaskId, resolution: TerminalState)

  predicate IsResolved(s: State, id: TaskId) {
    id in s.lifecycles && s.lifecycles[id].Resolved?
  }

  ghost function Act(s: State, a: Action, sequence: int): Result<State> {
    match a
    case Apply(event) => Step(s, event, sequence)
    case LegacyCreate(c) =>
      if c.taskId == Named("") then Err(EVENT_PAYLOAD_INVALID)
      else if c.taskId in s.contracts then Err(TASK_IDENTITY_CONFLICT)
      else CreateTask(s, c)
    case LegacyResolve(id, resolution) =>
      if IsResolved(s, id) then Err(DUPLICATE_TASK_TRANSITION)
      else if id in s.contracts then Ok(s.(lifecycles := s.lifecycles[id := Resolved(resolution)]))
      else Ok(s)
  }

  datatype Run = Run(states: seq<State>, actions: seq<Action>, sequences: seq<int>)

  /** A run from the empty projection, its actions accepted under strictly increasing sequence numbers. */
  ghost predicate ValidRun(r: Run) {
    && |r.states| == |r.actions| + 1 && |r.sequences| == |r.actions|
    && r.states[0] == EMPTY_STATE
    && (forall i :: 0 <= i < |r.actions| ==> Follows(r, i))
  }

  /** Action `i` is accepted in state `i` and leads to the next, under a later sequence number. */
  ghost predicate Follows(r: Run, i: nat)
    requires i < |r.actions| < |r.states| && |r.sequences| == |r.actions|
  {
    && Act(r.states[i], r.actions[i], r.sequences[i]) == Ok(r.states[i + 1])
    && Before(r, i) < r.sequences[i]
  }

  /** The sequence number of the last action before state `i`. */
  function Before(r: Run, i: nat): int
    requires i <= |r.sequences|
  {
    if i == 0 then 0 else r.sequences[i - 1]
  }

  lemma ActKeeps(s: State, a: Action, last: int, sequence: int)
    requires Inv(s, last) && last < sequence && 1 <= sequence
    requires Act(s, a, sequence).Ok?
    ensures Inv(Act(s, a, sequence).value, sequence) && Grows(s, Act(s, a, sequence).value, last)
  {
    hide Inv, Grows, Step;
    match a
    case Apply(event) => StepKeeps(s, event, last, sequence);
    case LegacyCreate(c) => CreateTaskKeeps(s, c, last, sequence);
    case LegacyResolve(id, resolution) =>
      if id in s.contracts {
        HasLifecycle(s, id, last);
        ChangeLifecycleKeeps(s, id, Resolved(resolution), last, sequence);
      } else {
        Later(s, last, sequence);
      }
  }

  lemma HasLifecycle(s: State, id: TaskId, last: int)
    requires Inv(s, last)
    ensures id in s.contracts <==> id in s.lifecycles
  {
  }

  lemma RunStep(r: Run, i: nat)
    requires ValidRun(r) && i < |r.actions|
    ensures Act(r.states[i], r.actions[i], r.sequences[i]) == Ok(r.states[i + 1])
    ensures Before(r, i) < r.sequences[i] == Before(r, i + 1)
  {
    hide Act;
    assert Follows(r, i);
  }

  lemma {:induction false} SequencesRise(r: Run, i: nat, j: nat)
    requires ValidRun(r) && i <= j <= |r.actions|
    ensures 0 <= Before(r, i) <= Before(r, j)
    decreases j
  {
    hide ValidRun;
    if j > 0 {
      RunStep(r, j - 1);
      SequencesRise(r, if i < j then i else j - 1, j - 1);
    }
  }

  lemma RunLength(r: Run)
    requires ValidRun(r)
    ensures |r.states| == |r.actions| + 1 && |r.sequences| == |r.actions| && r.states[0] == EMPTY_STATE
  {
    hide Act;
  }

  lemma {:induction false} RunInv(r: Run, i: nat)
    requires ValidRun(r) && i < |r.states|
    ensures i <= |r.sequences| && Inv(r.states[i], Before(r, i))
  {
    hide Inv, Grows, Act, ValidRun;
    RunLength(r);
    if i == 0 {
      EmptyInv();
    } else {
      RunInv(r, i - 1);
      RunStep(r, i - 1);
      SequencesRise(r, i - 1, i);
      ActKeeps(r.states[i - 1], r.actions[i - 1], Before(r, i - 1), r.sequences[i - 1]);
    }
  }

  lemma {:induction false} RunGrows(r: Run, i: nat, j: nat)
    requires ValidRun(r) && i <= j < |r.states|
    ensures i <= |r.sequences| && Grows(r.states[i], r.states[j], Before(r, i))
    decreases j - i
  {
    hide Inv, Grows, Act, ValidRun;
    RunLength(r);
    if i == j {
      GrowsReflexive(r.states[i], Before(r, i));
    } else {
      RunGrows(r, i, j - 1);
      RunInv(r, j - 1);
      RunStep(r, j - 1);
      SequencesRise(r, i, j - 1);
      ActKeeps(r.states[j - 1], r.actions[j - 1], Before(r, j - 1), r.sequences[j - 1]);
      GrowsTransitive(r.states[i], r.states[j - 1], r.states[j], Before(r, i), Before(r, j - 1));
    }
  }

  lemma EmptyRun()
    ensures ValidRun(Run([EMPTY_STATE], [], []))
  {
  }

  /** A run with one more action, accepted in its last state. */
  function Extended(r: Run, a: Action, sequence: int, t: State): Run {
    Run(r.states + [t], r.actions + [a], r.sequences + [sequence])
  }

  lemma RunExtended(r: Run, a: Action, sequence: int)
    requires ValidRun(r) && Act(r.states[|r.states| - 1], a, sequence).Ok? && Before(r, |r.sequences|) < sequence
    ensures ValidRun(Extended(r, a, sequence, Act(r.states[|r.states| - 1], a, sequence).value))
  {
    hide Act;
    var longer := Extended(r, a, sequence, Act(r.states[|r.states| - 1], a, sequence).value);
    forall i | 0 <= i < |longer.actions| ensures Follows(longer, i) {
      if i < |r.actions| {
        assert Follows(r, i);
        assert longer.states[i] == r.states[i] && longer.states[i + 1] == r.states[i + 1];
        assert longer.actions[i] == r.actions[i] && longer.sequences[i] == r.sequences[i] && Before(longer, i) == Before(r, i);
      }
    }
  }

  // ----- Frozen graphs -----

  /** Equal graph digests are graphs on the same tasks. */
  lemma SameGraphSameClosure(c: map<TaskId, Contract>, e: seq<Edge>, d: map<TaskId, Contract>, f: seq<Edge>, target: TaskId)
    requires forall id :: id in c ==> c[id].taskId == id
    requires forall id :: id in d ==> d[id].taskId == id
    requires Closure(e, target) <= c.Keys && Closure(f, target) <= d.Keys
    requires TargetGraph(c, e, target) == TargetGraph(d, f, target)
    ensures Closure(e, target) == Closure(f, target)
  {
    var x, y := Closure(e, target), Closure(f, target);
    forall id | id in x ensures id in y {
      assert c[id] in TargetGraph(c, e, target).contracts;
      assert c[id] in TargetGraph(d, f, target).contracts;
    }
    forall id | id in y ensures id in x {
      assert d[id] in TargetGraph(d, f, target).contracts;
      assert d[id] in TargetGraph(c, e, target).contracts;
    }
  }

  lemma KnownClosure(s: State, last: int, w: string)
    requires Inv(s, last) && w in s.workflows
    ensures var target := s.workflows[w].authorization.targetTaskId;
            && (forall id :: id in s.contracts ==> s.contracts[id].taskId == id)
            && Closure(s.edges, target) <= s.contracts.Keys
            && (HoldsGraph(s.workflows[w]) ==>
                  s.workflows[w].authorization.graphDigest == Some(TargetGraph(s.contracts, s.edges, target)))
  {
    hide AttemptInv, OneLiveAttempt, AbortInv, DependenciesMet, ResolutionInv, OnlyAuthorised;
    KnownWorkflow(s.contracts, s.edges, s.workflows, w);
    ClosureWithinKnown(s.contracts.Keys, s.edges, s.workflows[w].authorization.targetTaskId);
  }

  /**
   * The graph frozen by a workflow never changes while it runs: its digest stays, and the target's
   * closure keeps the same tasks, contracts and edges.
   */
  lemma FrozenGraphNeverChanges(r: Run, i: nat, j: nat, w: string)
    requires ValidRun(r) && i <= j < |r.states|
    requires w in r.states[i].workflows && r.states[i].workflows[w].authorization.graphDigest.Some?
    ensures w in r.states[j].workflows
    ensures r.states[j].workflows[w].authorization == r.states[i].workflows[w].authorization
    ensures r.states[j].workflows[w].state.Running? ==>
              var target := r.states[i].workflows[w].authorization.targetTaskId;
              && r.states[i].workflows[w].state.Running?
              && r.states[j].workflows[w].authorization.graphDigest.value == TargetGraph(r.states[j].contracts, r.states[j].edges, target)
              && TargetGraph(r.states[j].contracts, r.states[j].edges, target) == TargetGraph(r.states[i].contracts, r.states[i].edges, target)
              && TaskClosure(r.states[j], target) == TaskClosure(r.states[i], target)
  {
    hide ValidRun, Inv, Grows, TargetGraph;
    var s, t := r.states[i], r.states[j];
    RunGrows(r, i, j);
    RunInv(r, i);
    RunInv(r, j);
    WorkflowLater(s, t, Before(r, i), w);
    if t.workflows[w].state.Running? {
      KnownClosure(s, Before(r, i), w);
      KnownClosure(t, Before(r, j), w);
      SameGraphSameClosure(s.contracts, s.edges, t.contracts, t.edges, s.workflows[w].authorization.targetTaskId);
    }
  }

  lemma WorkflowLater(s: State, t: State, bound: int, w: string)
    requires Grows(s, t, bound) && w in s.workflows
    ensures w in t.workflows && SameAuthority(s.workflows[w], t.workflows[w])
  {
  }

  /**
   * In every reachable state the contract and graph digests that a launch checks again are unchanged:
   * a launch is refused for its graph only when the workflow has no graph yet or the task is not in it.
   */
  lemma LaunchDigestsStillHold(r: Run, i: nat, w: string, taskId: TaskId, time: Option<int>, principal: string, grant: string)
    requires ValidRun(r) && i < |r.states| && w in r.states[i].workflows
    ensures var s := r.states[i];
            var a := s.workflows[w].authorization;
            var check := LaunchCheck(s, w, taskId, time, principal, grant);
            && check != Fail(PLAN_SOURCE_CHANGED) && check != Fail(EXECUTION_INVALID)
            && (check == Fail(WORKFLOW_GRAPH_CHANGED) ==> a.graphDigest.None? || taskId !in TaskClosure(s, a.targetTaskId))
            && (check == Pass ==> a.graphDigest.Some? && taskId in TaskClosure(s, a.targetTaskId))
  {
    hide ValidRun, Inv;
    var s := r.states[i];
    RunInv(r, i);
    WorkflowDigests(s, Before(r, i), w);
    LaunchCodes(s, w, taskId, time, principal, grant);
  }

  lemma LaunchCodes(s: State, w: string, taskId: TaskId, time: Option<int>, principal: string, grant: string)
    requires w in s.workflows && WorkflowFits(s.contracts, w, s.workflows[w].authorization)
    requires HoldsGraph(s.workflows[w]) ==>
               s.workflows[w].authorization.graphDigest == Some(GraphDigestOf(s, WorkflowClosure(s, w)))
    ensures var a := s.workflows[w].authorization;
            var check := LaunchCheck(s, w, taskId, time, principal, grant);
            && check != Fail(PLAN_SOURCE_CHANGED) && check != Fail(EXECUTION_INVALID)
            && (check == Fail(WORKFLOW_GRAPH_CHANGED) ==> a.graphDigest.None? || taskId !in TaskClosure(s, a.targetTaskId))
            && (check == Pass ==> a.graphDigest.Some? && taskId in TaskClosure(s, a.targetTaskId))
  {
    hide ParentAdmits, GraphOf, Closure;
  }

  lemma WorkflowDigests(s: State, last: int, w: string)
    requires Inv(s, last) && w in s.workflows
    ensures WorkflowFits(s.contracts, w, s.workflows[w].authorization)
    ensures HoldsGraph(s.workflows[w]) ==>
              s.workflows[w].authorization.graphDigest == Some(GraphDigestOf(s, WorkflowClosure(s, w)))
  {
    hide GraphInv, AttemptInv, OneLiveAttempt, AbortInv, DependenciesMet, ResolutionInv, OnlyAuthorised;
    KnownWorkflow(s.contracts, s.edges, s.workflows, w);
  }

  lemma PreparedIsAuthorised(s: State, last: int, k: AttemptKey)
    requires Inv(s, last) && k in s.prepared && s.prepared[k].workflowId.Some?
    ensures Authorised(s.contracts, s.prepared[k], s.workflows)
  {
    hide GraphInv, AttemptInv, OneLiveAttempt, AbortInv, DependenciesMet, ResolutionInv, WorkflowInv, FrozenGraphs;
  }

  /** Whatever was prepared under a workflow is a task of the graph it was authorised for. */
  lemma OnlyAuthorisedTasksPrepared(r: Run, i: nat, k: AttemptKey)
    requires ValidRun(r) && i < |r.states|
    requires k in r.states[i].prepared && r.states[i].prepared[k].workflowId.Some?
    ensures Authorised(r.states[i].contracts, r.states[i].prepared[k], r.states[i].workflows)
    ensures var w := r.states[i].workflows[r.states[i].prepared[k].workflowId.value];
            w.state.Running? ==> r.states[i].prepared[k].taskId in TaskClosure(r.states[i], w.authorization.targetTaskId)
  {
    hide ValidRun, Inv;
    var s := r.states[i];
    RunInv(r, i);
    PreparedIsAuthorised(s, Before(r, i), k);
    var w := s.prepared[k].workflowId.value;
    KnownClosure(s, Before(r, i), w);
    if s.workflows[w].state.Running? {
      var c := s.contracts[s.prepared[k].taskId];
      assert c in TargetGraph(s.contracts, s.edges, s.workflows[w].authorization.targetTaskId).contracts;
    }
  }

  // ----- Dependencies before dependents -----

  /** A chain of requires-success edges. */
  ghost predicate SuccessChain(edges: seq<Edge>, p: seq<TaskId>) {
    p != [] && forall i :: 0 <= i < |p| - 1 ==> SuccessLink(edges, p[i], p[i + 1])
  }

  ghost predicate SuccessLink(edges: seq<Edge>, a: TaskId, b: TaskId) {
    exists e :: e in edges && e.sourceTaskId == a && e.dependentTaskId == b && e.edgeType.RequiresSuccess?
  }

  /** If an attempt of a task was ever prepared, every edge now into the task is met. */
  lemma DependenciesResolvedFirst(r: Run, i: nat, k: AttemptKey, e: Edge)
    requires ValidRun(r) && i < |r.states| && k in r.states[i].prepared
    requires e in r.states[i].edges && e.dependentTaskId == r.states[i].prepared[k].taskId
    ensures EdgeMet(e, r.states[i].resolutions)
    ensures var resolution := r.states[i].resolutions[e.sourceTaskId].resolution;
            && (e.edgeType == RequiresSuccess ==> resolution == Succeeded)
            && (e.edgeType == RequiresOutcome ==> e.allowedOutcomes.Some? && resolution in e.allowedOutcomes.value)
  {
    RunInv(r, i);
    hide ValidRun, GraphInv, AttemptInv, OneLiveAttempt, AbortInv, ResolutionInv, WorkflowInv, FrozenGraphs, OnlyAuthorised;
  }

  lemma SuccessInvariants(s: State, last: int)
    requires Inv(s, last)
    ensures DependenciesMet(s.prepared, s.edges, s.resolutions) && ResolutionInv(s.lifecycles, s.prepared, s.resolutions)
  {
  }

  lemma {:induction false} ChainSucceeded(s: State, p: seq<TaskId>, i: nat)
    requires DependenciesMet(s.prepared, s.edges, s.resolutions) && ResolutionInv(s.lifecycles, s.prepared, s.resolutions)
    requires SuccessChain(s.edges, p) && WasPrepared(s.prepared, p[|p| - 1]) && i < |p|
    ensures WasPrepared(s.prepared, p[i])
    ensures i < |p| - 1 ==> p[i] in s.resolutions && s.resolutions[p[i]].resolution.Succeeded?
    decreases |p| - i
  {
    if i < |p| - 1 {
      ChainSucceeded(s, p, i + 1);
      var k :| k in s.prepared && s.prepared[k].taskId == p[i + 1];
      assert SuccessLink(s.edges, p[i], p[i + 1]);
      var e :| e in s.edges && e.sourceTaskId == p[i] && e.dependentTaskId == p[i + 1] && e.edgeType.RequiresSuccess?;
      assert EdgeMet(e, s.resolutions);
    }
  }

  /** Every task that reaches a prepared one through requires-success edges alone has resolved as succeeded. */
  lemma SuccessChainSucceeded(r: Run, i: nat, k: AttemptKey, p: seq<TaskId>, m: nat)
    requires ValidRun(r) && i < |r.states| && k in r.states[i].prepared
    requires SuccessChain(r.states[i].edges, p) && p[|p| - 1] == r.states[i].prepared[k].taskId && m < |p| - 1
    ensures p[m] in r.states[i].resolutions && r.states[i].resolutions[p[m]].resolution.Succeeded?
  {
    hide ValidRun, Inv, DependenciesMet, ResolutionInv, SuccessChain;
    RunInv(r, i);
    SuccessInvariants(r.states[i], Before(r, i));
    assert WasPrepared(r.states[i].prepared, p[|p| - 1]);
    ChainSucceeded(r.states[i], p, m);
  }

  // ----- Attempts -----

  lemma AttemptInvariants(s: State, last: int)
    requires Inv(s, last)
    ensures OneLiveAttempt(s.prepared, s.attempts) && AbortInv(s.attempts, s.aborted, s.receipts)
    ensures AttemptInv(s.lifecycles, s.prepared, s.attempts, last)
  {
  }

  /** Two attempts of one task are never live at once. */
  lemma AtMostOneLiveAttempt(r: Run, i: nat, j: AttemptKey, k: AttemptKey)
    requires ValidRun(r) && i < |r.states|
    requires LiveFor(r.states[i].prepared, r.states[i].attempts, j) && LiveFor(r.states[i].prepared, r.states[i].attempts, k)
    requires r.states[i].prepared[j].taskId == r.states[i].prepared[k].taskId
    ensures j == k
  {
    hide ValidRun, Inv, AbortInv, AttemptInv;
    RunInv(r, i);
    AttemptInvariants(r.states[i], Before(r, i));
  }

  /** Action `i` commits the launch intent of an attempt. */
  predicate CommitsLaunch(r: Run, i: nat, k: AttemptKey)
    requires i + 1 < |r.states|
  {
    && k in r.states[i].attempts && r.states[i].attempts[k].state.Planned?
    && k in r.states[i + 1].attempts && r.states[i + 1].attempts[k].state.LaunchIntentCommitted?
  }

  lemma EvolvedAttempt(s: State, t: State, bound: int, k: AttemptKey)
    requires Grows(s, t, bound) && k in s.attempts
    ensures k in t.attempts && Evolves(s.attempts[k], t.attempts[k], bound)
  {
  }

  /** An attempt that has left `Planned` never returns to it. */
  lemma NeverPlannedAgain(r: Run, i: nat, j: nat, k: AttemptKey)
    requires ValidRun(r) && i <= j < |r.states|
    requires k in r.states[i].attempts && !r.states[i].attempts[k].state.Planned?
    ensures k in r.states[j].attempts && !r.states[j].attempts[k].state.Planned?
  {
    hide ValidRun, Grows;
    RunGrows(r, i, j);
    EvolvedAttempt(r.states[i], r.states[j], Before(r, i), k);
  }

  /** Launch intent is committed at most once per attempt. */
  lemma LaunchIntentCommittedOnce(r: Run, i: nat, j: nat, k: AttemptKey)
    requires ValidRun(r) && i + 1 < |r.states| && j + 1 < |r.states|
    requires CommitsLaunch(r, i, k) && CommitsLaunch(r, j, k)
    ensures i == j
  {
    hide ValidRun;
    if i < j {
      NeverPlannedAgain(r, i + 1, j, k);
    } else if j < i {
      NeverPlannedAgain(r, j + 1, i, k);
    }
  }

  lemma AbortsAndReceiptsStay(s: State, t: State, bound: int)
    requires Grows(s, t, bound)
    ensures s.aborted.Keys <= t.aborted.Keys && s.receipts.Keys <= t.receipts.Keys
  {
    hide LifecyclesAdvance, AttemptsEvolve, NonePreparedLate, WorkflowsKept;
  }

  /** An attempt is never aborted at one time and given a receipt at another. */
  lemma AbortExcludesReceipt(r: Run, i: nat, j: nat, k: AttemptKey)
    requires ValidRun(r) && i < |r.states| && j < |r.states|
    requires k in r.states[i].aborted
    ensures k !in r.states[j].receipts
  {
    hide ValidRun, Inv, Grows, OneLiveAttempt, AttemptInv;
    var n := if i < j then j else i;
    RunGrows(r, i, n);
    RunGrows(r, j, n);
    RunInv(r, n);
    AbortsAndReceiptsStay(r.states[i], r.states[n], Before(r, i));
    AbortsAndReceiptsStay(r.states[j], r.states[n], Before(r, j));
    AttemptInvariants(r.states[n], Before(r, n));
  }

  // ----- Resolutions -----

  predicate ResolvesWith(a: Action, res: TaskResolution) {
    a.Apply? && a.event.body.TaskResolved? && a.event.body.resolution == res
  }

  /** What an accepted resolution leaves behind. */
  lemma ResolutionRecorded(s: State, event: Event, sequence: int)
    requires event.body.TaskResolved? && Step(s, event, sequence).Ok?
    ensures var res := event.body.resolution;
            var t := Step(s, event, sequence).value;
            && ResolveTask(ResolutionRequest(res), TaskAttempts(s, res.taskId)) == Ok(Some(res))
            && t.prepared == s.prepared
            && res.taskId in t.lifecycles && t.lifecycles[res.taskId].Resolved?
  {
    hide ResolveTask, TaskAttempts;
  }

  /** No attempt joins a resolved task. */
  lemma SameAttemptKeys(s: State, t: State, u: State, id: TaskId, last: int, bound: int)
    requires t.prepared == s.prepared && id in t.lifecycles && t.lifecycles[id].Resolved?
    requires Extends(t.prepared, u.prepared) && NonePreparedLate(t.lifecycles, t.prepared, u.prepared)
    requires AttemptsEvolve(s.attempts, u.attempts, bound)
    requires s.prepared.Keys == s.attempts.Keys && u.prepared.Keys == u.attempts.Keys
    ensures AttemptKeysOf(u, id) == AttemptKeysOf(s, id)
  {
  }

  /**
   * Once a resolution has been recorded, resolving the task again with the same request in any later
   * state gives the same resolution and the same winning generation.
   */
  lemma RecordedResolutionIsStable(r: Run, i: nat, j: nat, res: TaskResolution)
    requires ValidRun(r) && i < j < |r.states| && ResolvesWith(r.actions[i], res)
    ensures var again := ResolveTask(ResolutionRequest(res), TaskAttempts(r.states[j], res.taskId));
            && again.Ok? && again.value.Some?
            && again.value.value.resolution == res.resolution
            && again.value.value.winningGeneration == res.winningGeneration
  {
    var s, t, u := r.states[i], r.states[i + 1], r.states[j];
    RunStep(r, i);
    RunLength(r);
    RunInv(r, i);
    RunInv(r, j);
    RunGrows(r, i, j);
    RunGrows(r, i + 1, j);
    SequencesRise(r, i, j);
    hide ValidRun, Inv, Grows, Step, ResolveTask;
    ResolutionRecorded(s, r.actions[i].event, r.sequences[i]);
    LaterResolution(s, t, u, res, Before(r, i), Before(r, i + 1), Before(r, j));
  }

  lemma LaterResolution(s: State, t: State, u: State, res: TaskResolution, last: int, next: int, end: int)
    requires Inv(s, last) && Inv(u, end) && Grows(s, u, last) && Grows(t, u, next)
    requires ResolveTask(ResolutionRequest(res), TaskAttempts(s, res.taskId)) == Ok(Some(res))
    requires t.prepared == s.prepared && res.taskId in t.lifecycles && t.lifecycles[res.taskId].Resolved?
    ensures var again := ResolveTask(ResolutionRequest(res), TaskAttempts(u, res.taskId));
            && again.Ok? && again.value.Some?
            && again.value.value.resolution == res.resolution
            && again.value.value.winningGeneration == res.winningGeneration
  {
    AttemptInvariants(s, last);
    AttemptInvariants(u, end);
    hide ResolveTask, OneLiveAttempt, AbortInv, LifecyclesAdvance, WorkflowsKept;
    hide GraphInv, DependenciesMet, ResolutionInv, WorkflowInv, FrozenGraphs, OnlyAuthorised;
    SameAttemptKeys(s, t, u, res.taskId, last, last);
    AttemptsCompared(s, u, res.taskId, last, end);
    hide TaskAttempts, ResolutionRequest, Settled, Evolves, AttemptInv, AttemptsEvolve, Extends, NonePreparedLate;
    ResolveStable(ResolutionRequest(res), TaskAttempts(s, res.taskId), TaskAttempts(u, res.taskId), last);
  }

  /** The same attempts, in the same order, as they were and as they evolved. */
  lemma AttemptsCompared(s: State, u: State, id: TaskId, last: int, end: int)
    requires AttemptKeysOf(u, id) == AttemptKeysOf(s, id)
    requires AttemptInv(s.lifecycles, s.prepared, s.attempts, last) && AttemptInv(u.lifecycles, u.prepared, u.attempts, end)
    requires AttemptsEvolve(s.attempts, u.attempts, last)
    ensures var (xs, ys) := (TaskAttempts(s, id), TaskAttempts(u, id));
            && |xs| == |ys|
            && (forall n :: 0 <= n < |xs| ==> Settled(xs[n]) && Settled(ys[n]) && Evolves(xs[n], ys[n], last))
            && (forall n :: 0 <= n < |xs| && xs[n].terminalEventSequence.Some? ==> xs[n].terminalEventSequence.value <= last)
  {
    var keys := Enumerate(AttemptKeysOf(s, id));
    var xs, ys := TaskAttempts(s, id), TaskAttempts(u, id);
    hide Enumerate, Settled, Evolves;
    forall n | 0 <= n < |xs| ensures Settled(xs[n]) && Settled(ys[n]) && Evolves(xs[n], ys[n], last)
      && (xs[n].terminalEventSequence.Some? ==> xs[n].terminalEventSequence.value <= last)
    {
      assert keys[n] in Elements(keys);
      assert ValidAttempt(keys[n], s.attempts[keys[n]], last) && ValidAttempt(keys[n], u.attempts[keys[n]], end);
    }
  }

  // ----- Adoption -----

  /**
   * On a reachable state the graph check of an adoption never fails for a plan whose derived ids are
   * free, and the source task then waits for exactly its old dependencies and the children.
   */
  lemma AdoptionSucceeds(s: State, last: int, taskId: TaskId, planDigest: Digest)
    requires Inv(s, last)
    requires AdoptionTargets(s, taskId, planDigest, HeldByWorkflow(s, taskId, true)) == Pass
    requires s.plans[planDigest].planDigest !in s.adopted && ParsedPlan(s.plans[planDigest])
    requires FreshContracts(s.contracts, Adopted(s.plans[planDigest]).contracts)
    requires forall e, f :: e in s.edges && f in Adopted(s.plans[planDigest]).edges ==> e.edgeId != f.edgeId
    ensures var p := s.plans[planDigest];
            var r := AdoptPlan(s, taskId, planDigest);
            && r.Ok?
            && TaskClosure(r.value, taskId) == TaskClosure(s, taskId) + Children(p)
            && EdgesWithin(r.value.edges, TaskClosure(r.value, taskId)) == EdgesWithin(s.edges, TaskClosure(s, taskId)) + Adopted(p).edges
            && (forall c :: c in Children(p) ==> Reaches(r.value.edges, c, taskId))
  {
    var p := s.plans[planDigest];
    hide AttemptInv, OneLiveAttempt, AbortInv, DependenciesMet, ResolutionInv, WorkflowInv, FrozenGraphs, OnlyAuthorised;
    hide HeldByWorkflow, EverPrepared, ParsedPlan, Adopted, DependencyCheck, AdoptPlan, AddContracts;
    ChildrenAreIds(p);
    AddContractsMeaning(s.contracts, Adopted(p).contracts);
    AdoptableHere(s, p);
    hide Acyclic, WellFormedGraph, FreshContracts;
    PlanAdoption(p, s.contracts.Keys, s.edges);
    AdoptShape(s, taskId, planDigest);
  }

  /** An adoption that passes its checks leaves the state with the derived contracts and edges. */
  lemma AdoptShape(s: State, taskId: TaskId, planDigest: Digest)
    requires AdoptionTargets(s, taskId, planDigest, HeldByWorkflow(s, taskId, true)) == Pass
    requires s.plans[planDigest].planDigest !in s.adopted && ParsedPlan(s.plans[planDigest])
    requires FreshContracts(s.contracts, Adopted(s.plans[planDigest]).contracts)
    requires var a := Adopted(s.plans[planDigest]);
             DependencyCheck(AddContracts(s.contracts, a.contracts).Keys, s.edges + a.edges) == Pass
    ensures var r := AdoptPlan(s, taskId, planDigest);
            r.Ok? && r.value.edges == s.edges + Adopted(s.plans[planDigest]).edges
  {
    hide HeldByWorkflow, ParsedPlan, Adopted, DependencyCheck, FreshContracts, AddContracts, AddDrafts, MutableCheck, HasContract;
  }

  lemma AdoptableHere(s: State, p: Plan)
    requires GraphInv(s.contracts, s.lifecycles, s.edges) && ParsedPlan(p) && p.sourceTaskId in s.contracts
    requires FreshContracts(s.contracts, Adopted(p).contracts)
    requires forall e, f :: e in s.edges && f in Adopted(p).edges ==> e.edgeId != f.edgeId
    ensures Adoptable(p, s.contracts.Keys, s.edges)
  {
    hide ParsedPlan, Adopted, Acyclic, WellFormedGraph;
    ChildrenAreIds(p);
    forall id | id in Children(p) ensures id !in s.contracts {
      assert id in Ids(Adopted(p).contracts);
    }
  }
}
