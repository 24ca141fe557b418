/** The task states of a run against the lifecycles of its execution projection (packages/domain/src/receipt.ts). */
module RunViews {
  import opened Wrappers
  import opened Identity
  import opened Canonical
  import opened Events
  import opened Ledger
  import opened RunLedger
  import opened RunReplay
  import Attempts
  import E = Execution
  import S = ExecutionSafety
  import R = ExecutionRuns
  import ExecutionReducer

  function ResolvedTasks(lifecycles: map<TaskId, Attempts.Lifecycle>): set<TaskId> {
    set id | id in lifecycles && lifecycles[id].Resolved?
  }

  /** The tasks that the older event names. */
  function LegacyResolved(events: seq<Sealed>): set<TaskId> {
    set item | item in events && item.envelope.payload.LegacyTaskResolved? :: item.envelope.payload.taskId
  }

  /** The task states are of the tasks with a resolved lifecycle and of those that the older event names. */
  predicate StatesExact(o: Operational, events: seq<Sealed>) {
    o.taskStates.Keys == ResolvedTasks(o.execution.lifecycles) + LegacyResolved(events)
  }

  // ----- One event -----

  lemma LegacyNext(events: seq<Sealed>, item: Sealed)
    ensures var p := item.envelope.payload;
            LegacyResolved(events + [item]) == LegacyResolved(events) + (if p.LegacyTaskResolved? then {p.taskId} else {})
  {
    assert forall x :: x in events + [item] <==> x in events || x == item;
  }

  lemma ResolvedStay(s: E.State, t: E.State, bound: int)
    requires S.Grows(s, t, bound)
    ensures ResolvedTasks(s.lifecycles) <= ResolvedTasks(t.lifecycles)
  {
  }

  lemma ExecutedStates(o: Operational, t: E.State)
    requires ResolvedTasks(o.execution.lifecycles) <= ResolvedTasks(t.lifecycles)
    ensures WithExecution(o, t).taskStates.Keys == o.taskStates.Keys + ResolvedTasks(t.lifecycles)
  {
    assert Resolutions(t.lifecycles).Keys == ResolvedTasks(t.lifecycles);
  }

  lemma ExecuteKeepsStates(o: Operational, events: seq<Sealed>, event: E.Event, last: int, sequence: int)
    requires S.Inv(o.execution, last) && 0 <= last < sequence && StatesExact(o, events)
    requires Execute(o, event, sequence).Replayed?
    ensures StatesExact(Execute(o, event, sequence).value, events)
  {
    hide S.Inv, S.Grows, E.Step, ResolvedTasks, LegacyResolved, WithExecution;
    var t := E.Step(o.execution, event, sequence).value;
    S.StepKeeps(o.execution, event, last, sequence);
    ResolvedStay(o.execution, t, last);
    ExecutedStates(o, t);
    SameExecution(o, t);
  }

  lemma SameExecution(o: Operational, t: E.State)
    ensures WithExecution(o, t).execution == t
  {
  }

  lemma LegacyKeepsStates(o: Operational, events: seq<Sealed>, taskId: TaskId, title: string)
    requires taskId !in o.tasks ==> taskId !in o.execution.lifecycles
    requires StatesExact(o, events) && CreateLegacyTask(o, taskId, title).Replayed?
    ensures StatesExact(CreateLegacyTask(o, taskId, title).value, events)
  {
    hide LegacyResolved;
    assert ResolvedTasks(CreateLegacyTask(o, taskId, title).value.execution.lifecycles) == ResolvedTasks(o.execution.lifecycles);
  }

  lemma LegacyResolutionKeepsStates(o: Operational, taskId: TaskId, resolution: TerminalState)
    requires ResolveLegacyTask(o, taskId, resolution).Replayed?
    requires ResolvedTasks(o.execution.lifecycles) <= o.taskStates.Keys
    ensures var next := ResolveLegacyTask(o, taskId, resolution).value;
            && next.taskStates.Keys == o.taskStates.Keys + {taskId}
            && ResolvedTasks(next.execution.lifecycles) + {taskId} == ResolvedTasks(o.execution.lifecycles) + {taskId}
  {
  }

  /** The events about tasks that are not of the older kind, and all others, on the same list of events. */
  lemma OthersKeepStates(o: Operational, events: seq<Sealed>, p: Payload, sequence: int)
    requires StatesExact(o, events) && Change(o, p, sequence).Replayed?
    requires !p.TaskExecution? && !p.LegacyTaskCreated? && !p.LegacyTaskResolved?
    ensures StatesExact(Change(o, p, sequence).value, events)
  {
    ProposalChangesOnly(o, p, sequence);
    hide Change, ResolvedTasks, LegacyResolved;
  }

  lemma LegacyStates(o: Operational, events: seq<Sealed>, item: Sealed)
    requires StatesExact(o, events) && item.envelope.payload.LegacyTaskResolved?
    requires ResolveLegacyTask(o, item.envelope.payload.taskId, item.envelope.payload.resolution).Replayed?
    ensures StatesExact(ResolveLegacyTask(o, item.envelope.payload.taskId, item.envelope.payload.resolution).value, events + [item])
  {
    LegacyNext(events, item);
    LegacyResolutionKeepsStates(o, item.envelope.payload.taskId, item.envelope.payload.resolution);
    hide ResolvedTasks, LegacyResolved, ResolveLegacyTask;
  }

  lemma NotLegacyStates(o: Operational, events: seq<Sealed>, item: Sealed)
    requires StatesExact(o, events) && !item.envelope.payload.LegacyTaskResolved?
    ensures StatesExact(o, events + [item])
  {
    LegacyNext(events, item);
  }

  lemma ChangeKeepsStates(o: Operational, events: seq<Sealed>, item: Sealed, last: int, sequence: int)
    requires S.Inv(o.execution, last) && 0 <= last < sequence && o.tasks.Keys == o.execution.contracts.Keys && StatesExact(o, events)
    requires Change(o, item.envelope.payload, sequence).Replayed?
    ensures StatesExact(Change(o, item.envelope.payload, sequence).value, events + [item])
  {
    hide S.Inv, StatesExact, ResolveLegacyTask, Execute, CreateLegacyTask;
    hide SubmitProposal, AcceptProposal, DecideProposal, RecordReceipt;
    var p := item.envelope.payload;
    if p.LegacyTaskResolved? {
      LegacyStates(o, events, item);
    } else {
      if p.TaskExecution? {
        ExecuteKeepsStates(o, events, p.event, last, sequence);
      } else if p.LegacyTaskCreated? {
        R.HasLifecycle(o.execution, p.taskId, last);
        LegacyKeepsStates(o, events, p.taskId, p.title);
      } else {
        OthersKeepStates(o, events, p, sequence);
      }
      NotLegacyStates(Change(o, p, sequence).value, events, item);
    }
  }

  /**
   * On a state whose task states are the resolved lifecycles, the older event keeps them so if and
   * only if the task it names is known.
   */
  lemma LegacyAgreesWhenKnown(o: Operational, taskId: TaskId, resolution: TerminalState)
    requires o.taskStates == Resolutions(o.execution.lifecycles) && ResolveLegacyTask(o, taskId, resolution).Replayed?
    ensures var next := ResolveLegacyTask(o, taskId, resolution).value;
            next.taskStates == Resolutions(next.execution.lifecycles) <==> taskId in o.execution.contracts
  {
    var next := ResolveLegacyTask(o, taskId, resolution).value;
    assert taskId in next.taskStates;
    assert taskId !in o.execution.contracts ==> taskId !in Resolutions(next.execution.lifecycles);
    assert taskId in o.execution.contracts ==> next.taskStates == Resolutions(next.execution.lifecycles);
  }

  // ----- Whole replays -----

  lemma AdvanceMoves(s: Option<Operational>, e: Envelope)
    requires Advance(s, e).Replayed?
    ensures s.Some?
    ensures var moved := Advance(s, e).value;
            moved.tasks == s.value.tasks && moved.taskStates == s.value.taskStates && moved.execution == s.value.execution
  {
  }

  lemma OperationalFacts(s: Projections, events: seq<Sealed>)
    requires RunInv(s, events)
    ensures s.operational.Some? && S.Inv(s.operational.value.execution, |events|)
    ensures s.operational.value.tasks.Keys == s.operational.value.execution.contracts.Keys
  {
    hide CanonicalInv, DeltasChained, DeltasDistinct, DeltasAccepted, Reached, S.Inv, ExecutionReducer.Consistent;
    ReachedConsistent(s.operational.value.execution, |events|);
  }

  lemma OperationalAfter(s: Projections, item: Sealed)
    requires s.operational.Some? && ReplayOne(s, item).Replayed?
    ensures Advance(s.operational, item.envelope).Replayed?
    ensures var changed := Change(Advance(s.operational, item.envelope).value, item.envelope.payload, item.envelope.sequence);
            changed.Replayed? && ReplayOne(s, item).value.operational == Some(changed.value)
  {
    hide Change, NextCanonical, Advance;
  }

  lemma OneKeepsStates(s: Projections, events: seq<Sealed>, item: Sealed)
    requires RunInv(s, events) && item.envelope.sequence == |events| + 1
    requires StatesExact(s.operational.value, events) && ReplayOne(s, item).Replayed?
    ensures StatesExact(ReplayOne(s, item).value.operational.value, events + [item])
  {
    hide Change, Advance, ReplayOne, S.Inv;
    OperationalFacts(s, events);
    hide RunInv;
    OperationalAfter(s, item);
    AdvanceMoves(s.operational, item.envelope);
    ChangeKeepsStates(Advance(s.operational, item.envelope).value, events, item, |events|, item.envelope.sequence);
  }

  lemma FirstStates(item: Sealed)
    requires ReplayOne(NOTHING, item).Replayed?
    ensures var o := ReplayOne(NOTHING, item).value.operational.value; StatesExact(o, [item])
  {
    FirstShape(item);
    NewRunIs(item.envelope.workspaceId, item.envelope.streamId);
    hide ReplayOne, NextCanonical;
  }

  lemma {:induction false} FoldStates(events: seq<Sealed>)
    requires events != [] && Fold(events).Replayed?
    requires forall i :: 0 <= i < |events| ==> events[i].envelope.sequence == i + 1 && Parses(events[i].envelope.payload)
    ensures Fold(events).value.operational.Some? && StatesExact(Fold(events).value.operational.value, events)
    decreases |events|
  {
    hide RunInv, ReplayOne, Parses, StatesExact;
    var front, item := events[..|events| - 1], events[|events| - 1];
    FoldInv(front);
    FoldInv(events);
    assert front + [item] == events;
    HasOperational(Fold(events).value, events);
    if front == [] {
      FirstStates(item);
    } else {
      FoldStates(front);
      OneKeepsStates(Fold(front).value, front, item);
    }
  }

  lemma HasOperational(s: Projections, events: seq<Sealed>)
    requires RunInv(s, events)
    ensures s.operational.Some? && ViewsInv(s.operational.value)
  {
  }

  /**
   * In every replay the task states are of exactly the tasks whose lifecycle is resolved and those
   * that the older event names.  So they are the resolved lifecycles if and only if every task that
   * the older event names has a resolved lifecycle.
   */
  lemma TaskStatesExactly(events: seq<Sealed>)
    requires Replay(events).Replayed?
    ensures var o := Replay(events).value.operational.value;
            && o.taskStates.Keys == ResolvedTasks(o.execution.lifecycles) + LegacyResolved(events)
            && (o.taskStates == Resolutions(o.execution.lifecycles) <==> LegacyResolved(events) <= ResolvedTasks(o.execution.lifecycles))
  {
    hide Fold, ReplayOne, ChainFault, Parses, CanonicalInv, DeltasChained, DeltasDistinct, DeltasAccepted, Reached;
    ReplayInv(events);
    ChainFacts(events);
    FoldStates(events);
    hide Replay;
    Agreement(Replay(events).value.operational.value, events);
  }

  lemma Agreement(o: Operational, events: seq<Sealed>)
    requires StatesExact(o, events) && ViewsInv(o)
    ensures o.taskStates == Resolutions(o.execution.lifecycles) <==> LegacyResolved(events) <= ResolvedTasks(o.execution.lifecycles)
  {
    hide LegacyResolved;
    assert Resolutions(o.execution.lifecycles).Keys == ResolvedTasks(o.execution.lifecycles);
  }

  // ----- A replay that holds more -----

  /** The genesis of a run, and the older event for some task right after it. */
  function ResolvedAtOnce(cursor: WorkspaceCursor, runId: string, document: Json, principalId: string, commandId: string,
                          id: TaskId, resolution: TerminalState): seq<Sealed> {
    var genesis := CreateRunGenesis(cursor, runId, document, principalId, commandId).0;
    var payload := LegacyTaskResolved(cursor.workspaceId, runId, id, resolution);
    [genesis, SealEventEnvelope(Envelope("1", RunStream, cursor.workspaceId, runId, 2, commandId, LegacyTaskResolvedType, principalId,
                                         commandId, commandId, commandId, Some(genesis.envelopeHash), OtherHash(""), payload))]
  }

  lemma ResolvedAtOnceValid(cursor: WorkspaceCursor, runId: string, document: Json, principalId: string, commandId: string,
                            id: TaskId, resolution: TerminalState)
    requires cursor.workspaceId != "" && runId != "" && principalId != "" && commandId != "" && id != Named("")
    ensures ValidChain(ResolvedAtOnce(cursor, runId, document, principalId, commandId, id, resolution))
  {
    var events := ResolvedAtOnce(cursor, runId, document, principalId, commandId, id, resolution);
    var genesis := events[0];
    RunGenesisValid(cursor, runId, document, principalId, commandId);
    hide ValidChain, SealEventEnvelope;
    assert ValidChain([genesis]);
    var payload := LegacyTaskResolved(cursor.workspaceId, runId, id, resolution);
    var draft := Envelope("1", RunStream, cursor.workspaceId, runId, 2, commandId, LegacyTaskResolvedType, principalId,
                          commandId, commandId, commandId, Some(genesis.envelopeHash), OtherHash(""), payload);
    SealedEventExtends([genesis], draft);
    assert [genesis] + [SealEventEnvelope(draft)] == events;
  }

  /** The second event of such a stream, on a run that was just created. */
  lemma ResolvedInNewRun(item: Sealed, canonical: Option<CanonicalDocument>)
    requires var (e, p) := (item.envelope, item.envelope.payload);
             p.LegacyTaskResolved? && e.sequence == 2
    ensures var (e, p) := (item.envelope, item.envelope.payload);
            var o := NewRun(e.workspaceId, e.streamId).(eventCount := 2, contextEpoch := 1, lastEventSequence := 2);
            ReplayOne(Projections(canonical, Some(NewRun(e.workspaceId, e.streamId))), item)
            == Replayed(Projections(canonical, Some(o.(taskStates := o.taskStates[p.taskId := p.resolution]))))
  {
  }

  lemma GenesisReplays(item: Sealed)
    requires var (e, p) := (item.envelope, item.envelope.payload);
             p.RunCreated? && e.sequence == 1 && p.workspaceId == e.workspaceId && p.runId == e.streamId
    ensures ReplayOne(NOTHING, item).Replayed?
    ensures ReplayOne(NOTHING, item).value.operational == Some(NewRun(item.envelope.workspaceId, item.envelope.streamId))
    ensures ReplayOne(NOTHING, item).value.canonical.Some?
  {
    hide DeepClone, StateHash;
  }

  lemma FoldTwo(a: Sealed, b: Sealed)
    requires ReplayOne(NOTHING, a).Replayed?
    ensures Fold([a, b]) == ReplayOne(ReplayOne(NOTHING, a).value, b)
  {
    hide ReplayOne;
    FoldNext([a, b], 0);
    FoldNext([a, b], 1);
    assert [a, b][..2] == [a, b];
  }

  lemma ReplayIsFold(events: seq<Sealed>)
    requires ValidChain(events) && events != [] && events[0].envelope.streamKind.RunStream? && Fold(events).Replayed?
    requires Fold(events).value.canonical.Some? && Fold(events).value.operational.Some?
    ensures Replay(events) == Fold(events)
  {
    hide ChainFault, Fold;
  }

  lemma FoldResolvedAtOnce(cursor: WorkspaceCursor, runId: string, document: Json, principalId: string, commandId: string,
                           id: TaskId, resolution: TerminalState)
    ensures var events := ResolvedAtOnce(cursor, runId, document, principalId, commandId, id, resolution);
            && events[0].envelope.streamKind.RunStream?
            && Fold(events).Replayed? && Fold(events).value.canonical.Some? && Fold(events).value.operational.Some?
            && Fold(events).value.operational.value.taskStates == NewRun(cursor.workspaceId, runId).taskStates[id := resolution]
            && Fold(events).value.operational.value.execution == E.EMPTY_STATE
  {
    var events := ResolvedAtOnce(cursor, runId, document, principalId, commandId, id, resolution);
    hide Fold, ReplayOne, HashEnvelope, HashPayload;
    GenesisReplays(events[0]);
    ResolvedInNewRun(events[1], ReplayOne(NOTHING, events[0]).value.canonical);
    FoldTwo(events[0], events[1]);
  }

  /**
   * A replay whose task states hold more than the resolved lifecycles: the older event names a task
   * that the run does not know.
   */
  lemma ReplayHoldsMore(cursor: WorkspaceCursor, runId: string, document: Json, principalId: string, commandId: string,
                        id: TaskId, resolution: TerminalState)
    requires cursor.workspaceId != "" && runId != "" && principalId != "" && commandId != "" && id != Named("")
    ensures var r := Replay(ResolvedAtOnce(cursor, runId, document, principalId, commandId, id, resolution));
            && r.Replayed?
            && id in r.value.operational.value.taskStates && r.value.operational.value.taskStates[id] == resolution
            && Resolutions(r.value.operational.value.execution.lifecycles) == map[]
  {
    ResolvedAtOnceValid(cursor, runId, document, principalId, commandId, id, resolution);
    FoldResolvedAtOnce(cursor, runId, document, principalId, commandId, id, resolution);
    hide ValidChain, Fold, Replay, ResolvedAtOnce, Resolutions;
    ReplayIsFold(ResolvedAtOnce(cursor, runId, document, principalId, commandId, id, resolution));
    NoResolutions();
  }

  lemma NoResolutions()
    ensures Resolutions(E.EMPTY_STATE.lifecycles) == map[]
  {
  }
}
