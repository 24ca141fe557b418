/** What a replay says of each proposal, receipt and document: what the last event about it says (packages/domain/src/receipt.ts). */
module RunHistory {
  import opened Wrappers
  import opened Identity
  import opened Canonical
  import opened Events
  import opened Ledger
  import opened RunLedger
  import opened RunReplay
  import opened RunViews

  // ----- What the events say -----

  /** What the last events about a proposal say of it. */
  function ProposalSaid(events: seq<Sealed>, id: string): Option<Proposal> {
    if events == [] then None
    else
      var before := ProposalSaid(events[..|events| - 1], id);
      match events[|events| - 1].envelope.payload
      case ProposalSubmitted(_, _, proposalId, digest) =>
        if proposalId == id then Some(Proposal(Submitted, digest, None, None)) else before
      case AdmissionDecisionRecorded(_, _, proposalId, digest, state, provenance, artifact) =>
        if proposalId == id then Some(Proposal(Decided(state), digest, Some(provenance), Some(artifact))) else before
      case DeltaAccepted(_, _, proposalId, digest, _, _, _) =>
        if proposalId != id then before
        else if before.None? then Some(Proposal(Decided(Accepted), digest, None, None))
        else Some(before.value.(status := Decided(Accepted)))
      case _ => before
  }

  /** What the event about a receipt says of it. */
  function ReceiptSaid(events: seq<Sealed>, id: string): Option<RecordedReceipt> {
    if events == [] then None
    else
      match events[|events| - 1].envelope.payload
      case LegacyReceiptRecorded(_, _, receiptId, digest, outcome) =>
        if receiptId == id then Some(RecordedReceipt(digest, outcome)) else ReceiptSaid(events[..|events| - 1], id)
      case _ => ReceiptSaid(events[..|events| - 1], id)
  }

  /** What the older event about a task says of it. */
  function ResolutionSaid(events: seq<Sealed>, id: TaskId): Option<TerminalState> {
    if events == [] then None
    else
      match events[|events| - 1].envelope.payload
      case LegacyTaskResolved(_, _, taskId, resolution) =>
        if taskId == id then Some(resolution) else ResolutionSaid(events[..|events| - 1], id)
      case _ => ResolutionSaid(events[..|events| - 1], id)
  }

  /** The last event with a document: its place, and the proposal it was accepted for. */
  function DocumentSaid(events: seq<Sealed>): Option<(nat, Json, Option<string>)> {
    if events == [] then None
    else
      match events[|events| - 1].envelope.payload
      case RunCreated(_, _, document) => Some((|events|, document, None))
      case DeltaAccepted(_, _, id, _, _, _, document) => Some((|events|, document, Some(id)))
      case _ => DocumentSaid(events[..|events| - 1])
  }

  function Lookup<K, V>(m: map<K, V>, k: K): Option<V> {
    if k in m then Some(m[k]) else None
  }

  // ----- One event -----

  ghost predicate ProposalsSaid(proposals: map<string, Proposal>, events: seq<Sealed>) {
    forall id: string :: Lookup(proposals, id) == ProposalSaid(events, id)
  }

  ghost predicate ReceiptsSaid(receipts: map<string, RecordedReceipt>, events: seq<Sealed>) {
    forall id: string :: Lookup(receipts, id) == ReceiptSaid(events, id)
  }

  /** A task state is that of the lifecycle, if it is resolved, and otherwise what the older event says. */
  predicate StatesSaid(o: Operational, events: seq<Sealed>) {
    forall id :: id in o.taskStates && id !in ResolvedTasks(o.execution.lifecycles) ==> ResolutionSaid(events, id) == Some(o.taskStates[id])
  }

  predicate TasksTitled(o: Operational) {
    o.tasks == Titles(o.execution.contracts)
  }

  lemma SaidNext(events: seq<Sealed>, item: Sealed)
    ensures (events + [item])[..|events|] == events && (events + [item])[|events|] == item
  {
  }

  lemma ProposalNext(o: Operational, events: seq<Sealed>, item: Sealed, sequence: int, id: string)
    requires Lookup(o.proposals, id) == ProposalSaid(events, id) && Change(o, item.envelope.payload, sequence).Replayed?
    ensures Lookup(Change(o, item.envelope.payload, sequence).value.proposals, id) == ProposalSaid(events + [item], id)
  {
    SaidNext(events, item);
    hide Titles, Resolutions, Execute;
    OtherProposals(o, item.envelope.payload, sequence);
  }

  /** Events about tasks and receipts leave the proposals alone. */
  lemma OtherProposals(o: Operational, p: Payload, sequence: int)
    requires Change(o, p, sequence).Replayed?
    ensures !p.ProposalSubmitted? && !p.AdmissionDecisionRecorded? && !p.DeltaAccepted? ==> Change(o, p, sequence).value.proposals == o.proposals
  {
    hide E.Step, Titles, Resolutions, SubmitProposal, AcceptProposal, DecideProposal;
  }

  lemma ProposalsNext(o: Operational, events: seq<Sealed>, item: Sealed, sequence: int)
    requires ProposalsSaid(o.proposals, events) && Change(o, item.envelope.payload, sequence).Replayed?
    ensures ProposalsSaid(Change(o, item.envelope.payload, sequence).value.proposals, events + [item])
  {
    hide Change, Lookup, ProposalSaid;
    forall id: string
      ensures Lookup(Change(o, item.envelope.payload, sequence).value.proposals, id) == ProposalSaid(events + [item], id)
    {
      assert Lookup(o.proposals, id) == ProposalSaid(events, id);
      ProposalNext(o, events, item, sequence, id);
    }
  }

  lemma ReceiptsNext(o: Operational, events: seq<Sealed>, item: Sealed, sequence: int)
    requires ReceiptsSaid(o.receipts, events) && Change(o, item.envelope.payload, sequence).Replayed?
    ensures ReceiptsSaid(Change(o, item.envelope.payload, sequence).value.receipts, events + [item])
  {
    SaidNext(events, item);
    hide E.Step, Titles, Resolutions;
    forall id: string
      ensures Lookup(Change(o, item.envelope.payload, sequence).value.receipts, id) == ReceiptSaid(events + [item], id)
    {
      assert Lookup(o.receipts, id) == ReceiptSaid(events, id);
    }
  }

  lemma TitlesNext(o: Operational, p: Payload, sequence: int)
    requires TasksTitled(o) && Change(o, p, sequence).Replayed?
    ensures TasksTitled(Change(o, p, sequence).value)
  {
    hide E.Step, Resolutions, SubmitProposal, AcceptProposal, DecideProposal, RecordReceipt;
    ProposalChangesOnly(o, p, sequence);
  }

  lemma ExecutedSays(o: Operational, t: E.State, events: seq<Sealed>)
    requires StatesSaid(o, events) && ResolvedTasks(o.execution.lifecycles) <= ResolvedTasks(t.lifecycles)
    ensures StatesSaid(WithExecution(o, t), events)
  {
    hide ResolutionSaid;
    assert Resolutions(t.lifecycles).Keys == ResolvedTasks(t.lifecycles);
  }

  lemma ExecuteSays(o: Operational, events: seq<Sealed>, event: E.Event, last: int, sequence: int)
    requires S.Inv(o.execution, last) && 0 <= last < sequence && StatesSaid(o, events)
    requires Execute(o, event, sequence).Replayed?
    ensures StatesSaid(Execute(o, event, sequence).value, events)
  {
    hide S.Inv, S.Grows, E.Step, ResolvedTasks, ResolutionSaid, WithExecution, StatesSaid;
    var t := E.Step(o.execution, event, sequence).value;
    S.StepKeeps(o.execution, event, last, sequence);
    ResolvedStay(o.execution, t, last);
    ExecutedSays(o, t, events);
  }

  lemma StatesNext(o: Operational, events: seq<Sealed>, item: Sealed, last: int, sequence: int)
    requires S.Inv(o.execution, last) && 0 <= last < sequence && o.tasks.Keys == o.execution.contracts.Keys && StatesSaid(o, events)
    requires Change(o, item.envelope.payload, sequence).Replayed?
    ensures StatesSaid(Change(o, item.envelope.payload, sequence).value, events + [item])
  {
    hide S.Inv, StatesSaid, ResolveLegacyTask, Execute, CreateLegacyTask, SubmitProposal, AcceptProposal, DecideProposal, RecordReceipt;
    var p := item.envelope.payload;
    if p.LegacyTaskResolved? {
      LegacySays(o, events, item);
    } else {
      if p.TaskExecution? {
        ExecuteSays(o, events, p.event, last, sequence);
      } else if p.LegacyTaskCreated? {
        R.HasLifecycle(o.execution, p.taskId, last);
        CreateSays(o, events, p.taskId, p.title);
      } else {
        OthersSay(o, events, p, sequence);
      }
      NothingSaid(Change(o, p, sequence).value, events, item);
    }
  }

  lemma LegacySays(o: Operational, events: seq<Sealed>, item: Sealed)
    requires StatesSaid(o, events) && item.envelope.payload.LegacyTaskResolved?
    requires ResolveLegacyTask(o, item.envelope.payload.taskId, item.envelope.payload.resolution).Replayed?
    ensures StatesSaid(ResolveLegacyTask(o, item.envelope.payload.taskId, item.envelope.payload.resolution).value, events + [item])
  {
    SaidNext(events, item);
  }

  lemma CreateSays(o: Operational, events: seq<Sealed>, taskId: TaskId, title: string)
    requires taskId !in o.tasks ==> taskId !in o.execution.lifecycles
    requires StatesSaid(o, events) && CreateLegacyTask(o, taskId, title).Replayed?
    ensures StatesSaid(CreateLegacyTask(o, taskId, title).value, events)
  {
    hide ResolutionSaid;
  }

  lemma OthersSay(o: Operational, events: seq<Sealed>, p: Payload, sequence: int)
    requires StatesSaid(o, events) && Change(o, p, sequence).Replayed?
    requires !p.TaskExecution? && !p.LegacyTaskCreated? && !p.LegacyTaskResolved?
    ensures StatesSaid(Change(o, p, sequence).value, events)
  {
    ProposalChangesOnly(o, p, sequence);
    hide Change, ResolvedTasks, ResolutionSaid;
  }

  lemma NothingSaid(o: Operational, events: seq<Sealed>, item: Sealed)
    requires StatesSaid(o, events) && !item.envelope.payload.LegacyTaskResolved?
    ensures StatesSaid(o, events + [item])
  {
    SaidNext(events, item);
  }

  // ----- Whole replays -----

  /** The ids and the document of a stream are those its events give. */
  predicate CanonicalSaid(c: CanonicalDocument, events: seq<Sealed>)
    requires events != []
  {
    && c.workspaceId == events[0].envelope.workspaceId && c.runId == events[0].envelope.streamId
    && DocumentSaid(events).Some?
    && var (n, document, proposal) := DocumentSaid(events).value;
       c.lastCanonicalEventSequence == n && c.document == Normalize(document) && c.acceptedProposalId == proposal
  }

  ghost predicate OperationalSaid(o: Operational, events: seq<Sealed>)
    requires events != []
  {
    && o.workspaceId == events[0].envelope.workspaceId && o.runId == events[0].envelope.streamId
    && ProposalsSaid(o.proposals, events) && ReceiptsSaid(o.receipts, events) && StatesSaid(o, events) && TasksTitled(o)
  }

  lemma CanonicalNext(c: CanonicalDocument, events: seq<Sealed>, item: Sealed)
    requires events != [] && CanonicalSaid(c, events) && item.envelope.sequence == |events| + 1
    requires NextCanonical(Some(c), item.envelope.payload, item.envelope).Replayed?
    ensures NextCanonical(Some(c), item.envelope.payload, item.envelope).value.Some?
    ensures CanonicalSaid(NextCanonical(Some(c), item.envelope.payload, item.envelope).value.value, events + [item])
  {
    SaidNext(events, item);
    hide StateHash, Normalize;
  }

  lemma AdvanceKeeps(s: Option<Operational>, e: Envelope)
    requires Advance(s, e).Replayed?
    ensures s.Some?
    ensures Advance(s, e).value
         == s.value.(eventCount := s.value.eventCount + 1, contextEpoch := s.value.contextEpoch + 1, lastEventSequence := e.sequence)
  {
  }

  lemma OperationalNext(o: Operational, moved: Operational, events: seq<Sealed>, item: Sealed)
    requires events != [] && OperationalSaid(o, events) && S.Inv(o.execution, |events|)
    requires moved == o.(eventCount := moved.eventCount, contextEpoch := moved.contextEpoch, lastEventSequence := moved.lastEventSequence)
    requires item.envelope.sequence == |events| + 1 && Change(moved, item.envelope.payload, item.envelope.sequence).Replayed?
    ensures OperationalSaid(Change(moved, item.envelope.payload, item.envelope.sequence).value, events + [item])
  {
    var (p, sequence) := (item.envelope.payload, item.envelope.sequence);
    assert StatesSaid(moved, events) && TasksTitled(moved);
    assert moved.tasks.Keys == moved.execution.contracts.Keys;
    ProposalChangesOnly(moved, p, sequence);
    hide Change, S.Inv, StatesSaid, TasksTitled, ProposalsSaid, ReceiptsSaid;
    ProposalsNext(moved, events, item, sequence);
    ReceiptsNext(moved, events, item, sequence);
    StatesNext(moved, events, item, |events|, sequence);
    TitlesNext(moved, p, sequence);
  }

  lemma OneSays(s: Projections, events: seq<Sealed>, item: Sealed)
    requires events != [] && RunInv(s, events) && item.envelope.sequence == |events| + 1 && ReplayOne(s, item).Replayed?
    requires CanonicalSaid(s.canonical.value, events) && OperationalSaid(s.operational.value, events)
    ensures var next := ReplayOne(s, item).value;
            && next.canonical.Some? && next.operational.Some?
            && CanonicalSaid(next.canonical.value, events + [item]) && OperationalSaid(next.operational.value, events + [item])
  {
    hide Change, Advance, ReplayOne, S.Inv, CanonicalSaid, OperationalSaid, NextCanonical;
    OperationalFacts(s, events);
    CanonicalThere(s, events);
    hide RunInv;
    OperationalAfter(s, item);
    CanonicalAfter(s, item);
    AdvanceKeeps(s.operational, item.envelope);
    CanonicalNext(s.canonical.value, events, item);
    OperationalNext(s.operational.value, Advance(s.operational, item.envelope).value, events, item);
  }

  lemma CanonicalThere(s: Projections, events: seq<Sealed>)
    requires RunInv(s, events)
    ensures s.canonical.Some?
  {
  }

  lemma CanonicalAfter(s: Projections, item: Sealed)
    requires ReplayOne(s, item).Replayed?
    ensures NextCanonical(s.canonical, item.envelope.payload, item.envelope).Replayed?
    ensures ReplayOne(s, item).value.canonical == NextCanonical(s.canonical, item.envelope.payload, item.envelope).value
  {
    hide Change, Advance, DeepClone, StateHash;
  }

  lemma FirstSays(item: Sealed)
    requires ReplayOne(NOTHING, item).Replayed?
    ensures var next := ReplayOne(NOTHING, item).value;
            && next.canonical.Some? && next.operational.Some?
            && CanonicalSaid(next.canonical.value, [item]) && OperationalSaid(next.operational.value, [item])
  {
    FirstShape(item);
    hide ReplayOne;
    SaidNext([], item);
    assert [] + [item] == [item];
    GenesisSays(item);
  }

  lemma GenesisSays(item: Sealed)
    requires item.envelope.payload.RunCreated? && item.envelope.sequence == 1
    requires NextCanonical(None, item.envelope.payload, item.envelope).Replayed?
    ensures NextCanonical(None, item.envelope.payload, item.envelope).value.Some?
    ensures CanonicalSaid(NextCanonical(None, item.envelope.payload, item.envelope).value.value, [item])
    ensures OperationalSaid(NewRun(item.envelope.workspaceId, item.envelope.streamId), [item])
  {
    hide StateHash, Normalize;
    assert [item][..0] == [];
    forall id: string ensures ProposalSaid([item], id) == None && ReceiptSaid([item], id) == None {
      assert ProposalSaid([item][..0], id) == None && ReceiptSaid([item][..0], id) == None;
    }
    assert Titles(E.EMPTY_STATE.contracts) == map[];
  }

  lemma {:induction false} FoldSays(events: seq<Sealed>)
    requires events != [] && Fold(events).Replayed?
    requires forall i :: 0 <= i < |events| ==> events[i].envelope.sequence == i + 1 && Parses(events[i].envelope.payload)
    ensures Fold(events).value.canonical.Some? && Fold(events).value.operational.Some?
    ensures CanonicalSaid(Fold(events).value.canonical.value, events) && OperationalSaid(Fold(events).value.operational.value, events)
    decreases |events|
  {
    hide RunInv, ReplayOne, Parses, CanonicalSaid, OperationalSaid;
    var front, item := events[..|events| - 1], events[|events| - 1];
    assert front + [item] == events;
    if front == [] {
      assert events == [item];
      FirstSays(item);
    } else {
      FoldInv(front);
      FoldSays(front);
      OneSays(Fold(front).value, front, item);
    }
  }

  /**
   * In every replay each proposal and each receipt is as the last events about it say, and there are
   * no others; each task state is that of the lifecycle or what the older event says; each task has the
   * title of its contract; and the document, its place and its proposal are those of the last event with one.
   */
  lemma ReplayedAsSaid(events: seq<Sealed>)
    requires Replay(events).Replayed?
    ensures events != []
    ensures CanonicalSaid(Replay(events).value.canonical.value, events) && OperationalSaid(Replay(events).value.operational.value, events)
  {
    hide Fold, ReplayOne, RunInv, ChainFault, Parses, CanonicalSaid, OperationalSaid;
    ReplayInv(events);
    ChainFacts(events);
    FoldSays(events);
  }

  /** The genesis of a run replays to the run it was asked for, with the document up to the sign of zeros. */
  lemma RunGenesisReplays(cursor: WorkspaceCursor, runId: string, document: Json, principalId: string, commandId: string)
    requires cursor.workspaceId != "" && runId != "" && principalId != "" && commandId != ""
    ensures var r := Replay([CreateRunGenesis(cursor, runId, document, principalId, commandId).0]);
            && r.Replayed?
            && r.value.canonical == Some(CanonicalDocument(cursor.workspaceId, runId, 0, Normalize(document), StateHash(document), None, 1))
            && r.value.operational == Some(Operational(cursor.workspaceId, runId, 1, map[], map[], map[], map[], E.EMPTY_STATE, 0, 1))
  {
    var event := CreateRunGenesis(cursor, runId, document, principalId, commandId).0;
    RunGenesisValid(cursor, runId, document, principalId, commandId);
    hide ChainFault, ReplayOne, HashEnvelope, HashPayload, StateHash, Normalize;
    GenesisReplays(event);
    FoldNext([event], 0);
    assert [event][..1] == [event];
    assert ValidChain([event]);
    ReplayIsFold([event]);
    FirstShape(event);
    CloneStateHash(document);
  }
}
