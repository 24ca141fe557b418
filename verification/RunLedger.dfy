/** The run projections: the canonical document and the operational state (packages/domain/src/receipt.ts). */
module RunLedger {
  import opened Wrappers
  import opened Events
  import opened Ledger
  import opened Identity
  import opened Canonical
  import Attempts
  import E = Execution
  import S = ExecutionSafety
  import R = ExecutionRuns
  import ExecutionReducer

  // ----- The canonical document -----

  datatype CanonicalDocument = CanonicalDocument(
    workspaceId: string,
    runId: string,
    revision: int,
    document: Json,
    stateHash: Canonical.Hash,
    acceptedProposalId: Option<string>,
    lastCanonicalEventSequence: int)

  /** `reduceCanonicalDocument`. */
  function ReduceCanonicalDocument(state: Option<CanonicalDocument>, p: Payload, e: Envelope): Replayed<CanonicalDocument>
    requires p.RunCreated? || p.DeltaAccepted?
  {
    if p.RunCreated? then
      :- Demand(state.None? && e.sequence == 1, LedgerError.InvalidGenesis);
      var document := DeepClone(p.initialDocument);
      Replayed(CanonicalDocument(e.workspaceId, e.streamId, 0, document, StateHash(document), None, 1))
    else
      :- Demand(state.Some? && e.sequence > state.value.lastCanonicalEventSequence, EventSequenceInvalid);
      var c := state.value;
      :- Demand(e.workspaceId == c.workspaceId && e.streamId == c.runId, AggregateIdentityMismatch);
      :- Demand(p.priorStateHash == c.stateHash && p.resultingStateHash == StateHash(p.resultingDocument), StaleBase);
      Replayed(c.(revision := c.revision + 1, document := DeepClone(p.resultingDocument), stateHash := p.resultingStateHash,
                  acceptedProposalId := Some(p.proposalId), lastCanonicalEventSequence := e.sequence))
  }

  // ----- The operational state -----

  datatype Proposal = Proposal(status: AdmissionState, proposalDigest: string, provenanceDigest: Option<string>, artifactDigest: Option<string>)

  datatype RecordedReceipt = RecordedReceipt(receiptDigest: string, outcome: TerminalState)

  datatype Operational = Operational(
    workspaceId: string,
    runId: string,
    eventCount: int,
    proposals: map<string, Proposal>,
    receipts: map<string, RecordedReceipt>,
    tasks: map<TaskId, string>,
    taskStates: map<TaskId, TerminalState>,
    execution: E.State,
    contextEpoch: int,
    lastEventSequence: int)

  /** The contract that stands for a task of the older kind. */
  function LegacyContract(taskId: TaskId, title: string): Contract {
    Contract(taskId, title, title, [], Work, None)
  }

  function Titles(contracts: map<TaskId, Contract>): map<TaskId, string> {
    map id | id in contracts :: contracts[id].title
  }

  /** The resolutions that the lifecycles record. */
  function Resolutions(lifecycles: map<TaskId, Attempts.Lifecycle>): map<TaskId, TerminalState> {
    map id | id in lifecycles && lifecycles[id].Resolved? :: lifecycles[id].resolution
  }

  /** The state of a run that was just created. */
  function NewRun(workspaceId: string, runId: string): Operational {
    Operational(workspaceId, runId, 1, map[], map[], map[], map[], E.EMPTY_STATE, 0, 1)
  }

  function CreateLegacyTask(o: Operational, taskId: TaskId, title: string): Replayed<Operational> {
    if taskId in o.tasks then Refused(TaskIdentityConflict)
    else
      var contract := LegacyContract(taskId, title);
      Replayed(o.(execution := o.execution.(contracts := o.execution.contracts[taskId := contract],
                                            lifecycles := o.execution.lifecycles[taskId := Attempts.Draft]),
                  tasks := o.tasks[taskId := title]))
  }

  function SubmitProposal(o: Operational, proposalId: string, proposalDigest: string): Replayed<Operational> {
    if proposalId in o.proposals && o.proposals[proposalId].proposalDigest != proposalDigest then Refused(ProposalIdentityConflict)
    else
      :- Demand(proposalId !in o.proposals, DuplicateProposalTransition);
      Replayed(o.(proposals := o.proposals[proposalId := Proposal(Submitted, proposalDigest, None, None)]))
  }

  predicate Open(status: AdmissionState) {
    status == Submitted || status == Decided(ApprovalRequired) || status == Decided(Quarantined)
  }

  function AcceptProposal(o: Operational, proposalId: string, proposalDigest: string): Replayed<Operational> {
    if proposalId in o.proposals && o.proposals[proposalId].proposalDigest != proposalDigest then Refused(ProposalIdentityConflict)
    else
      :- Demand(proposalId in o.proposals && Open(o.proposals[proposalId].status), ProposalNotSubmitted);
      Replayed(o.(proposals := o.proposals[proposalId := o.proposals[proposalId].(status := Decided(Accepted))]))
  }

  function DecideProposal(o: Operational, proposalId: string, proposalDigest: string, state: Decision,
                          provenanceDigest: string, artifactDigest: string): Replayed<Operational> {
    if proposalId !in o.proposals then Refused(ProposalNotSubmitted)
    else
      var proposal := o.proposals[proposalId];
      :- Demand(proposal.proposalDigest == proposalDigest, ProposalIdentityConflict);
      var completesAcceptedDelta := proposal.status == Decided(Accepted) && state.Accepted?;
      :- Demand(proposal.provenanceDigest.None? || completesAcceptedDelta || Open(proposal.status), DuplicateProposalTransition);
      :- Demand(completesAcceptedDelta || CanMove(proposal.status, state), IllegalAdmissionTransition);
      Replayed(o.(proposals := o.proposals[proposalId := Proposal(Decided(state), proposalDigest, Some(provenanceDigest), Some(artifactDigest))]))
  }

  function RecordReceipt(o: Operational, receiptId: string, receipt: RecordedReceipt): Replayed<Operational> {
    if receiptId in o.receipts && o.receipts[receiptId] != receipt then Refused(ReceiptIdentityConflict)
    else
      :- Demand(receiptId !in o.receipts, DuplicateReceiptTransition);
      Replayed(o.(receipts := o.receipts[receiptId := receipt]))
  }

  function ResolveLegacyTask(o: Operational, taskId: TaskId, resolution: TerminalState): Replayed<Operational> {
    if taskId in o.taskStates && o.taskStates[taskId] != resolution then Refused(TaskIdentityConflict)
    else
      :- Demand(taskId !in o.taskStates, DuplicateTaskTransition);
      var lifecycles := if taskId in o.execution.contracts then o.execution.lifecycles[taskId := Attempts.Resolved(resolution)]
                        else o.execution.lifecycles;
      Replayed(o.(execution := o.execution.(lifecycles := lifecycles), taskStates := o.taskStates[taskId := resolution]))
  }

  function WithExecution(o: Operational, execution: E.State): Operational {
    o.(execution := execution, tasks := Titles(execution.contracts), taskStates := o.taskStates + Resolutions(execution.lifecycles))
  }

  ghost function Execute(o: Operational, event: E.Event, sequence: int): Replayed<Operational> {
    match E.Step(o.execution, event, sequence)
    case Err(code) => Refused(LedgerError.Execution(code))
    case Ok(execution) => Replayed(WithExecution(o, execution))
  }

  /** An event other than the creation of the run, on the counters already moved. */
  ghost function Change(o: Operational, p: Payload, sequence: int): Replayed<Operational> {
    match p
    case TaskExecution(event) => Execute(o, event, sequence)
    case LegacyTaskCreated(_, _, taskId, title) => CreateLegacyTask(o, taskId, title)
    case ProposalSubmitted(_, _, proposalId, proposalDigest) => SubmitProposal(o, proposalId, proposalDigest)
    case AdmissionDecisionRecorded(_, _, proposalId, proposalDigest, state, provenance, artifact) =>
      DecideProposal(o, proposalId, proposalDigest, state, provenance, artifact)
    case DeltaAccepted(_, _, proposalId, proposalDigest, _, _, _) => AcceptProposal(o, proposalId, proposalDigest)
    case LegacyReceiptRecorded(_, _, receiptId, receiptDigest, outcome) => RecordReceipt(o, receiptId, RecordedReceipt(receiptDigest, outcome))
    case LegacyTaskResolved(_, _, taskId, resolution) => ResolveLegacyTask(o, taskId, resolution)
    case ForkCreated(_, _, _) => Replayed(o)
    case ContextManifestPublished(_, _, _) => Replayed(o)
    case _ => Refused(LedgerError.UnsupportedEventType)
  }

  /** The counters after one more event, or why the event does not belong here. */
  function Advance(state: Option<Operational>, e: Envelope): Replayed<Operational> {
    if state.None? then Refused(LedgerError.InvalidGenesis)
    else
      var o := state.value;
      :- Demand(e.workspaceId == o.workspaceId && e.streamId == o.runId, AggregateIdentityMismatch);
      :- Demand(e.sequence == o.lastEventSequence + 1, EventSequenceInvalid);
      Replayed(o.(eventCount := o.eventCount + 1, contextEpoch := o.contextEpoch + 1, lastEventSequence := e.sequence))
  }

  /** `reduceOperationalState`. */
  ghost function ReduceOperationalState(state: Option<Operational>, p: Payload, e: Envelope): Replayed<Operational> {
    if p.RunCreated? then
      :- Demand(state.None? && e.sequence == 1, LedgerError.InvalidGenesis);
      Replayed(NewRun(e.workspaceId, e.streamId))
    else
      var moved :- Advance(state, e);
      Change(moved, p, e.sequence)
  }

  // ----- Whole replays -----

  datatype Projections = Projections(canonical: Option<CanonicalDocument>, operational: Option<Operational>)

  const NOTHING := Projections(None, None)

  function RunOf(p: Payload): string {
    match p
    case TaskExecution(e) => e.runId
    case RunCreated(_, runId, _) => runId
    case LegacyTaskCreated(_, runId, _, _) => runId
    case _ => ""
  }

  /** Only these payloads are compared with the ids of their envelope. */
  predicate NamesItsRun(p: Payload) {
    p.TaskExecution? || p.RunCreated? || p.LegacyTaskCreated?
  }

  predicate OnRunStream(p: Payload) {
    !p.WorkspaceCreated? && !p.PolicyReferenceChanged? && !p.WorkspaceAdmissionRecorded? && !p.Malformed? && !p.Unsupported?
  }

  function NextCanonical(state: Option<CanonicalDocument>, p: Payload, e: Envelope): Replayed<Option<CanonicalDocument>> {
    if p.RunCreated? || p.DeltaAccepted? then
      var canonical :- ReduceCanonicalDocument(state, p, e);
      Replayed(Some(canonical))
    else Replayed(state)
  }

  ghost function ReplayOne(s: Projections, item: Sealed): Replayed<Projections> {
    var e, p := item.envelope, item.envelope.payload;
    :- Demand(NamesItsRun(p) ==> WorkspaceOf(p) == e.workspaceId && RunOf(p) == e.streamId, LedgerError.MalformedEvent);
    :- Demand(OnRunStream(p), LedgerError.UnsupportedEventType);
    var canonical :- NextCanonical(s.canonical, p, e);
    var operational :- ReduceOperationalState(s.operational, p, e);
    Replayed(Projections(canonical, Some(operational)))
  }

  ghost function Fold(events: seq<Sealed>): Replayed<Projections> {
    if events == [] then Replayed(NOTHING)
    else
      var before :- Fold(events[..|events| - 1]);
      ReplayOne(before, events[|events| - 1])
  }

  ghost function Replay(events: seq<Sealed>): Replayed<Projections> {
    if ChainFault(events).Some? then Refused(Chain(ChainFault(events).value))
    else if events == [] || !events[0].envelope.streamKind.RunStream? then Refused(LedgerError.InvalidGenesis)
    else
      var s :- Fold(events);
      if s.canonical.None? || s.operational.None? then Refused(LedgerError.InvalidGenesis) else Replayed(s)
  }

  lemma {:induction false} FoldRefused(events: seq<Sealed>, i: nat)
    requires i <= |events| && Fold(events[..i]).Refused?
    ensures Fold(events).Refused? && Fold(events).error == Fold(events[..i]).error
    decreases |events|
  {
    hide ReplayOne;
    if i == |events| {
      assert events[..i] == events;
    } else {
      var front := events[..|events| - 1];
      assert front[..i] == events[..i];
      FoldRefused(front, i);
    }
  }

  lemma FoldNext(events: seq<Sealed>, i: nat)
    requires i < |events| && Fold(events[..i]).Replayed?
    ensures Fold(events[..i + 1]) == ReplayOne(Fold(events[..i]).value, events[i])
  {
    hide ReplayOne;
    assert events[..i + 1][..i] == events[..i];
  }

  // ----- What every replay keeps -----

  /** The number of accepted deltas. */
  function Deltas(events: seq<Sealed>): nat {
    if events == [] then 0
    else Deltas(events[..|events| - 1]) + (if events[|events| - 1].envelope.payload.DeltaAccepted? then 1 else 0)
  }

  /** The hash that the last event with a document leaves: that of the initial document, or the one the last delta names. */
  function HashLeft(events: seq<Sealed>): Option<Canonical.Hash> {
    if events == [] then None
    else
      match events[|events| - 1].envelope.payload
      case RunCreated(_, _, document) => Some(StateHash(document))
      case DeltaAccepted(_, _, _, _, _, resulting, _) => Some(resulting)
      case _ => HashLeft(events[..|events| - 1])
  }

  /** Every delta starts from the hash that was left before it. */
  predicate DeltasChained(events: seq<Sealed>) {
    forall i :: 0 <= i < |events| ==> StartsFromLeft(events, i)
  }

  predicate StartsFromLeft(events: seq<Sealed>, i: nat)
    requires i < |events|
  {
    var p := events[i].envelope.payload;
    p.DeltaAccepted? ==> HashLeft(events[..i]) == Some(p.priorStateHash)
  }

  predicate DeltasDistinct(events: seq<Sealed>) {
    forall i, j :: 0 <= i < j < |events| && events[i].envelope.payload.DeltaAccepted? && events[j].envelope.payload.DeltaAccepted?
                   ==> events[i].envelope.payload.proposalId != events[j].envelope.payload.proposalId
  }

  predicate DeltasAccepted(events: seq<Sealed>, proposals: map<string, Proposal>) {
    forall item :: item in events && item.envelope.payload.DeltaAccepted? ==>
                     HasAccepted(proposals, item.envelope.payload.proposalId)
  }

  predicate HasAccepted(proposals: map<string, Proposal>, proposalId: string) {
    proposalId in proposals && proposals[proposalId].status == Decided(Accepted)
  }

  predicate CanonicalInv(c: CanonicalDocument, events: seq<Sealed>) {
    && c.revision == Deltas(events)
    && Normalize(c.document) == c.document
    && c.stateHash == StateHash(c.document)
    && HashLeft(events) == Some(c.stateHash)
    && 1 <= c.lastCanonicalEventSequence <= |events|
  }

  predicate CountersInv(o: Operational, n: int) {
    o.lastEventSequence == n && o.eventCount == n && o.contextEpoch == n - 1
  }

  /** The views of the execution projection: a title for each task, and every resolved lifecycle. */
  predicate ViewsInv(o: Operational) {
    && o.tasks.Keys == o.execution.contracts.Keys
    && (forall id :: id in o.execution.lifecycles && o.execution.lifecycles[id].Resolved? ==>
          id in o.taskStates && o.taskStates[id] == o.execution.lifecycles[id].resolution)
  }

  /** The execution projection is the last state of a run of the task execution reducer. */
  ghost predicate ReachedBy(r: R.Run, s: E.State, last: int) {
    R.ValidRun(r) && r.states[|r.states| - 1] == s && R.Before(r, |r.sequences|) <= last
  }

  ghost predicate Reached(s: E.State, last: int) {
    exists r :: ReachedBy(r, s, last)
  }

  ghost predicate RunInv(s: Projections, events: seq<Sealed>) {
    && s.canonical.Some? && s.operational.Some?
    && CanonicalInv(s.canonical.value, events)
    && CountersInv(s.operational.value, |events|)
    && ViewsInv(s.operational.value)
    && DeltasChained(events) && DeltasDistinct(events) && DeltasAccepted(events, s.operational.value.proposals)
    && Reached(s.operational.value.execution, |events|)
  }

  // Runs of the execution reducer

  lemma EmptyRun()
    ensures Reached(E.EMPTY_STATE, 1)
  {
    var r := R.Run([E.EMPTY_STATE], [], []);
    R.EmptyRun();
    assert ReachedBy(r, E.EMPTY_STATE, 1);
  }

  lemma ReachedLater(s: E.State, last: int, later: int)
    requires Reached(s, last) && last <= later
    ensures Reached(s, later)
  {
    hide R.ValidRun;
    var r :| ReachedBy(r, s, last);
    assert ReachedBy(r, s, later);
  }

  lemma ReachedNext(s: E.State, a: R.Action, last: int, sequence: int)
    requires Reached(s, last) && last < sequence && R.Act(s, a, sequence).Ok?
    ensures Reached(R.Act(s, a, sequence).value, sequence)
  {
    var r :| ReachedBy(r, s, last);
    var t := R.Act(s, a, sequence).value;
    var longer := R.Extended(r, a, sequence, t);
    R.RunExtended(r, a, sequence);
    assert ReachedBy(longer, t, sequence);
  }

  lemma ReachedConsistent(s: E.State, last: int)
    requires Reached(s, last)
    ensures S.Inv(s, last) && ExecutionReducer.Consistent(s)
  {
    var r :| ReachedBy(r, s, last);
    R.RunInv(r, |r.states| - 1);
    InvLater(s, R.Before(r, |r.sequences|), last);
  }

  lemma InvLater(s: E.State, last: int, later: int)
    requires S.Inv(s, last) && last <= later
    ensures S.Inv(s, later) && ExecutionReducer.Consistent(s)
  {
    S.Later(s, last, later);
  }

  // One event keeps the invariant

  lemma DeltasNext(events: seq<Sealed>, item: Sealed)
    ensures Deltas(events + [item]) == Deltas(events) + (if item.envelope.payload.DeltaAccepted? then 1 else 0)
    ensures HashLeft(events + [item]) == match item.envelope.payload
                                         case RunCreated(_, _, document) => Some(StateHash(document))
                                         case DeltaAccepted(_, _, _, _, _, resulting, _) => Some(resulting)
                                         case _ => HashLeft(events)
  {
    hide StateHash;
    assert (events + [item])[..|events|] == events;
  }

  lemma CloneStateHash(document: Json)
    ensures StateHash(DeepClone(document)) == StateHash(document) && Normalize(DeepClone(document)) == DeepClone(document)
  {
    NormalizeIdempotent(document);
    StateHashNames(DeepClone(document), document);
  }

  lemma CanonicalKeeps(c: Option<CanonicalDocument>, events: seq<Sealed>, item: Sealed)
    requires c.None? ==> events == []
    requires c.Some? ==> CanonicalInv(c.value, events)
    requires item.envelope.sequence == |events| + 1
    requires var next := NextCanonical(c, item.envelope.payload, item.envelope);
             next.Replayed? && next.value.Some?
    ensures CanonicalInv(NextCanonical(c, item.envelope.payload, item.envelope).value.value, events + [item])
    ensures c.Some? && item.envelope.payload.DeltaAccepted? ==> item.envelope.payload.priorStateHash == c.value.stateHash
  {
    var p := item.envelope.payload;
    DeltasNext(events, item);
    if p.RunCreated? {
      CloneStateHash(p.initialDocument);
      assert Deltas([]) == 0;
    } else if p.DeltaAccepted? {
      CloneStateHash(p.resultingDocument);
    }
    hide DeepClone, StateHash, Normalize, Deltas, HashLeft;
  }

  lemma DeltasKeep(events: seq<Sealed>, item: Sealed, proposals: map<string, Proposal>)
    requires DeltasChained(events) && DeltasDistinct(events) && DeltasAccepted(events, proposals)
    requires item.envelope.payload.DeltaAccepted? ==>
               && HashLeft(events) == Some(item.envelope.payload.priorStateHash)
               && !HasAccepted(proposals, item.envelope.payload.proposalId)
    ensures DeltasChained(events + [item]) && DeltasDistinct(events + [item])
  {
    hide HashLeft;
    var more := events + [item];
    forall i | 0 <= i < |more| ensures StartsFromLeft(more, i) {
      if i < |events| {
        assert more[..i] == events[..i] && more[i] == events[i];
        assert StartsFromLeft(events, i);
      } else {
        assert more[..i] == events;
      }
    }
    forall i | 0 <= i < |events| && events[i].envelope.payload.DeltaAccepted? && item.envelope.payload.DeltaAccepted?
      ensures events[i].envelope.payload.proposalId != item.envelope.payload.proposalId
    {
      assert events[i] in events;
    }
  }

  /** Accepted proposals stay accepted. */
  ghost predicate AcceptedStay(before: map<string, Proposal>, after: map<string, Proposal>) {
    forall id :: HasAccepted(before, id) ==> HasAccepted(after, id)
  }

  lemma ProposalsChange(o: Operational, p: Payload, sequence: int)
    requires Change(o, p, sequence).Replayed?
    ensures AcceptedStay(o.proposals, Change(o, p, sequence).value.proposals)
    ensures p.DeltaAccepted? ==> !HasAccepted(o.proposals, p.proposalId) && HasAccepted(Change(o, p, sequence).value.proposals, p.proposalId)
  {
    hide E.Step, Titles, Resolutions;
  }

  lemma DeltasAcceptedNext(events: seq<Sealed>, item: Sealed, before: map<string, Proposal>, after: map<string, Proposal>)
    requires DeltasAccepted(events, before) && AcceptedStay(before, after)
    requires item.envelope.payload.DeltaAccepted? ==> HasAccepted(after, item.envelope.payload.proposalId)
    ensures DeltasAccepted(events + [item], after)
  {
    hide HasAccepted;
  }

  lemma ViewsKeep(o: Operational, p: Payload, sequence: int)
    requires ViewsInv(o) && Change(o, p, sequence).Replayed?
    ensures ViewsInv(Change(o, p, sequence).value)
  {
    hide E.Step, SubmitProposal, AcceptProposal, DecideProposal, RecordReceipt;
    ProposalChangesOnly(o, p, sequence);
  }

  /** The events about proposals and receipts leave the tasks and the counters alone. */
  lemma ProposalChangesOnly(o: Operational, p: Payload, sequence: int)
    requires Change(o, p, sequence).Replayed?
    ensures var n := Change(o, p, sequence).value;
            && n.workspaceId == o.workspaceId && n.runId == o.runId
            && n.eventCount == o.eventCount && n.contextEpoch == o.contextEpoch && n.lastEventSequence == o.lastEventSequence
            && (!p.TaskExecution? && !p.LegacyTaskCreated? && !p.LegacyTaskResolved? ==>
                  n.tasks == o.tasks && n.taskStates == o.taskStates && n.execution == o.execution)
  {
    hide E.Step, Titles, Resolutions;
  }

  lemma ExecutionMoves(o: Operational, p: Payload, last: int, sequence: int)
    requires ViewsInv(o) && Reached(o.execution, last) && last < sequence && Parses(p)
    requires Change(o, p, sequence).Replayed?
    ensures Reached(Change(o, p, sequence).value.execution, sequence)
  {
    hide R.ValidRun, Reached, E.Step;
    ProposalChangesOnly(o, p, sequence);
    ReachedConsistent(o.execution, last);
    match p
    case TaskExecution(event) =>
      ReachedNext(o.execution, R.Apply(event), last, sequence);
    case LegacyTaskCreated(_, _, taskId, title) =>
      LegacyCreateActs(o, taskId, title, sequence);
      ReachedNext(o.execution, R.LegacyCreate(LegacyContract(taskId, title)), last, sequence);
    case LegacyTaskResolved(_, _, taskId, resolution) =>
      LegacyResolveActs(o, taskId, resolution, sequence);
      ReachedNext(o.execution, R.LegacyResolve(taskId, resolution), last, sequence);
    case _ =>
      ReachedLater(o.execution, last, sequence);
  }

  lemma LegacyCreateActs(o: Operational, taskId: TaskId, title: string, sequence: int)
    requires ViewsInv(o) && taskId != Named("") && CreateLegacyTask(o, taskId, title).Replayed?
    ensures R.Act(o.execution, R.LegacyCreate(LegacyContract(taskId, title)), sequence)
         == Ok(CreateLegacyTask(o, taskId, title).value.execution)
  {
  }

  lemma LegacyResolveActs(o: Operational, taskId: TaskId, resolution: TerminalState, sequence: int)
    requires ViewsInv(o) && ResolveLegacyTask(o, taskId, resolution).Replayed?
    ensures R.Act(o.execution, R.LegacyResolve(taskId, resolution), sequence)
         == Ok(ResolveLegacyTask(o, taskId, resolution).value.execution)
  {
  }

  lemma ReplayKeeps(s: Projections, events: seq<Sealed>, item: Sealed)
    requires RunInv(s, events) && item.envelope.sequence == |events| + 1 && Parses(item.envelope.payload)
    requires ReplayOne(s, item).Replayed?
    ensures RunInv(ReplayOne(s, item).value, events + [item])
  {
    var e, p := item.envelope, item.envelope.payload;
    var next := ReplayOne(s, item).value;
    assert !p.RunCreated?;
    var moved := Advance(s.operational, e).value;
    hide Reached, CanonicalInv, ViewsInv, Change, NextCanonical, Parses, DeltasChained, DeltasDistinct, DeltasAccepted;
    CanonicalKeeps(s.canonical, events, item);
    ProposalsChange(moved, p, e.sequence);
    ProposalChangesOnly(moved, p, e.sequence);
    SameViews(s.operational.value, moved);
    ViewsKeep(moved, p, e.sequence);
    ExecutionMoves(moved, p, |events|, e.sequence);
    LeftHash(s.canonical.value, events);
    DeltasKeep(events, item, s.operational.value.proposals);
    DeltasAcceptedNext(events, item, s.operational.value.proposals, next.operational.value.proposals);
  }

  lemma LeftHash(c: CanonicalDocument, events: seq<Sealed>)
    requires CanonicalInv(c, events)
    ensures HashLeft(events) == Some(c.stateHash)
  {
  }

  lemma SameViews(o: Operational, moved: Operational)
    requires ViewsInv(o) && moved.tasks == o.tasks && moved.taskStates == o.taskStates && moved.execution == o.execution
    ensures ViewsInv(moved)
  {
  }

  lemma FirstShape(item: Sealed)
    requires ReplayOne(NOTHING, item).Replayed?
    ensures item.envelope.payload.RunCreated? && item.envelope.sequence == 1
    ensures var next := ReplayOne(NOTHING, item).value;
            var canonical := NextCanonical(None, item.envelope.payload, item.envelope);
            && canonical.Replayed? && canonical.value.Some?
            && next == Projections(canonical.value, Some(NewRun(item.envelope.workspaceId, item.envelope.streamId)))
  {
    hide Change, DeepClone, StateHash;
  }

  lemma NewRunIs(workspaceId: string, runId: string)
    ensures var o := NewRun(workspaceId, runId);
            CountersInv(o, 1) && ViewsInv(o) && o.execution == E.EMPTY_STATE && o.proposals == map[]
  {
  }

  lemma FirstKeeps(item: Sealed)
    requires ReplayOne(NOTHING, item).Replayed?
    ensures RunInv(ReplayOne(NOTHING, item).value, [] + [item])
  {
    FirstShape(item);
    NewRunIs(item.envelope.workspaceId, item.envelope.streamId);
    hide ReplayOne, NextCanonical, NewRun, Reached, ViewsInv, CountersInv;
    EmptyRun();
    CanonicalKeeps(None, [], item);
    hide CanonicalInv, HashLeft;
    DeltasKeep([], item, map[]);
  }

  lemma {:induction false} FoldInv(events: seq<Sealed>)
    requires Fold(events).Replayed?
    requires forall i :: 0 <= i < |events| ==> events[i].envelope.sequence == i + 1 && Parses(events[i].envelope.payload)
    ensures events == [] ==> Fold(events).value == NOTHING
    ensures events != [] ==> RunInv(Fold(events).value, events)
    decreases |events|
  {
    hide RunInv, ReplayOne, Parses;
    if events != [] {
      var front, item := events[..|events| - 1], events[|events| - 1];
      FoldInv(front);
      assert front + [item] == events;
      if front == [] {
        FirstKeeps(item);
      } else {
        ReplayKeeps(Fold(front).value, front, item);
      }
    }
  }
}
