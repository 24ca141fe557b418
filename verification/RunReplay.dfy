/** `deterministicReplay` and what it guarantees of every run stream (packages/domain/src/receipt.ts). */
module RunReplay {
  import opened Wrappers
  import opened Canonical
  import opened Events
  import opened Ledger
  import opened RunLedger
  import E = Execution
  import ExecutionReducer
  import DeltaEngine
  import DeltaLaws
  import Pointers

  // ----- The replay -----

  method ExecuteEvent(o: Operational, event: E.Event, sequence: int) returns (r: Replayed<Operational>)
    requires ExecutionReducer.Consistent(o.execution)
    ensures r == Execute(o, event, sequence)
  {
    hide E.Step, ExecutionReducer.Consistent, Titles, Resolutions;
    var execution := ExecutionReducer.Reduce(o.execution, event, sequence);
    if execution.Err? {
      return Refused(LedgerError.Execution(execution.code));
    }
    r := Replayed(WithExecution(o, execution.value));
  }

  method ReduceChange(o: Operational, p: Payload, sequence: int) returns (r: Replayed<Operational>)
    requires ExecutionReducer.Consistent(o.execution)
    ensures r == Change(o, p, sequence)
  {
    hide E.Step, ExecutionReducer.Consistent, Execute, CreateLegacyTask, SubmitProposal, DecideProposal, AcceptProposal, RecordReceipt, ResolveLegacyTask;
    match p {
      case TaskExecution(event) => r := ExecuteEvent(o, event, sequence);
      case LegacyTaskCreated(_, _, taskId, title) => r := CreateLegacyTask(o, taskId, title);
      case ProposalSubmitted(_, _, proposalId, proposalDigest) => r := SubmitProposal(o, proposalId, proposalDigest);
      case AdmissionDecisionRecorded(_, _, proposalId, proposalDigest, state, provenance, artifact) =>
        r := DecideProposal(o, proposalId, proposalDigest, state, provenance, artifact);
      case DeltaAccepted(_, _, proposalId, proposalDigest, _, _, _) => r := AcceptProposal(o, proposalId, proposalDigest);
      case LegacyReceiptRecorded(_, _, receiptId, receiptDigest, outcome) =>
        r := RecordReceipt(o, receiptId, RecordedReceipt(receiptDigest, outcome));
      case LegacyTaskResolved(_, _, taskId, resolution) => r := ResolveLegacyTask(o, taskId, resolution);
      case ForkCreated(_, _, _) => r := Replayed(o);
      case ContextManifestPublished(_, _, _) => r := Replayed(o);
      case _ => r := Refused(LedgerError.UnsupportedEventType);
    }
  }

  method ReduceOperational(state: Option<Operational>, p: Payload, e: Envelope) returns (r: Replayed<Operational>)
    requires state.Some? ==> ExecutionReducer.Consistent(state.value.execution)
    ensures r == ReduceOperationalState(state, p, e)
  {
    hide Change, ExecutionReducer.Consistent;
    if p.RunCreated? {
      return if state.None? && e.sequence == 1 then Replayed(NewRun(e.workspaceId, e.streamId)) else Refused(LedgerError.InvalidGenesis);
    }
    var moved := Advance(state, e);
    if moved.Refused? {
      return Refused(moved.error);
    }
    r := ReduceChange(moved.value, p, e.sequence);
  }

  /** One turn of the loop: first the canonical document, then the operational state. */
  method ReplayEvent(canonical: Option<CanonicalDocument>, operational: Option<Operational>, item: Sealed)
    returns (error: Option<LedgerError>, nextCanonical: Option<CanonicalDocument>, nextOperational: Option<Operational>)
    requires operational.Some? ==> ExecutionReducer.Consistent(operational.value.execution)
    ensures error.Some? ==> ReplayOne(Projections(canonical, operational), item) == Refused(error.value)
    ensures error.None? ==> ReplayOne(Projections(canonical, operational), item) == Replayed(Projections(nextCanonical, nextOperational))
  {
    hide ReduceOperationalState, NextCanonical, ExecutionReducer.Consistent;
    nextCanonical, nextOperational := canonical, operational;
    var e, p := item.envelope, item.envelope.payload;
    if NamesItsRun(p) && !(WorkspaceOf(p) == e.workspaceId && RunOf(p) == e.streamId) {
      return Some(LedgerError.MalformedEvent), canonical, operational;
    }
    if !OnRunStream(p) {
      return Some(LedgerError.UnsupportedEventType), canonical, operational;
    }
    var document := NextCanonical(canonical, p, e);
    if document.Refused? {
      return Some(document.error), canonical, operational;
    }
    var state := ReduceOperational(operational, p, e);
    if state.Refused? {
      return Some(state.error), canonical, operational;
    }
    error, nextCanonical, nextOperational := None, document.value, Some(state.value);
  }

  /** `deterministicReplay`. */
  method DeterministicReplay(events: seq<Sealed>) returns (r: Replayed<Projections>)
    ensures r == Replay(events)
  {
    hide ReplayOne, ChainFault, RunInv, Parses, ExecutionReducer.Consistent;
    var fault := VerifyEventChain(events);
    if fault.Some? {
      return Refused(Chain(fault.value));
    }
    if events == [] || !events[0].envelope.streamKind.RunStream? {
      return Refused(LedgerError.InvalidGenesis);
    }
    var canonical: Option<CanonicalDocument> := None;
    var operational: Option<Operational> := None;
    for i := 0 to |events|
      invariant Fold(events[..i]) == Replayed(Projections(canonical, operational))
    {
      PrefixConsistent(events, i);
      FoldNext(events, i);
      var error, nextCanonical, nextOperational := ReplayEvent(canonical, operational, events[i]);
      if error.Some? {
        FoldRefused(events, i + 1);
        return Refused(error.value);
      }
      canonical, operational := nextCanonical, nextOperational;
    }
    assert events[..|events|] == events;
    r := if canonical.None? || operational.None? then Refused(LedgerError.InvalidGenesis)
         else Replayed(Projections(canonical, operational));
  }

  lemma ChainFacts(events: seq<Sealed>)
    requires ValidChain(events)
    ensures forall i :: 0 <= i < |events| ==> events[i].envelope.sequence == i + 1 && Parses(events[i].envelope.payload)
  {
    hide ValidChain, Parses;
    forall i | 0 <= i < |events| ensures events[i].envelope.sequence == i + 1 && Parses(events[i].envelope.payload) {
      ItemFacts(events, i);
    }
  }

  /** What the loop has folded so far is a consistent execution projection. */
  lemma PrefixConsistent(events: seq<Sealed>, i: nat)
    requires ChainFault(events).None? && i <= |events| && Fold(events[..i]).Replayed?
    ensures var o := Fold(events[..i]).value.operational; o.Some? ==> ExecutionReducer.Consistent(o.value.execution)
  {
    hide ChainFault, Parses, ReplayOne, Fold, Reached, CanonicalInv, ViewsInv, DeltasChained, DeltasDistinct, DeltasAccepted, ExecutionReducer.Consistent;
    ChainFacts(events);
    FoldInv(events[..i]);
    if i > 0 {
      ReachedConsistent(Fold(events[..i]).value.operational.value.execution, i);
    }
  }

  // ----- What every successful replay guarantees -----

  lemma ReplayInv(events: seq<Sealed>)
    requires Replay(events).Replayed?
    ensures ValidChain(events) && Fold(events) == Replay(events) && RunInv(Replay(events).value, events)
  {
    hide Fold, ReplayOne, RunInv, ChainFault, Parses;
    assert ValidChain(events) by { assert ChainFault(events).None?; }
    ChainFacts(events);
    FoldInv(events);
  }

  /**
   * The canonical ledger: the revision counts the accepted deltas, no proposal has two of them, each
   * starts from the hash left before it, the document is named by its hash, and the epochs follow
   * the sequence.
   */
  lemma CanonicalLedger(events: seq<Sealed>)
    requires Replay(events).Replayed?
    ensures var (c, o) := (Replay(events).value.canonical.value, Replay(events).value.operational.value);
            && c.revision == Deltas(events)
            && DeltasDistinct(events)
            && DeltasChained(events)
            && c.stateHash == StateHash(c.document) && HashLeft(events) == Some(c.stateHash)
            && Normalize(c.document) == c.document
            && o.lastEventSequence == |events| == events[|events| - 1].envelope.sequence
            && o.contextEpoch == o.lastEventSequence - 1 && o.eventCount == |events|
  {
    ReplayInv(events);
    ChainFacts(events);
    hide Replay, Fold, ValidChain, Parses, Deltas, HashLeft, StateHash, Normalize, DeltasDistinct, DeltasChained, DeltasAccepted, Reached, ViewsInv;
  }

  /**
   * The execution projection of a replayed stream is the last state of a run of the task execution
   * reducer, so everything proved of such runs holds of it.
   */
  lemma ReplayedExecutionIsARun(events: seq<Sealed>)
    requires Replay(events).Replayed?
    ensures var o := Replay(events).value.operational.value;
            && exists r :: ReachedBy(r, o.execution, o.lastEventSequence)
    ensures var o := Replay(events).value.operational.value;
            forall id :: id in o.execution.lifecycles && o.execution.lifecycles[id].Resolved? ==>
                           id in o.taskStates && o.taskStates[id] == o.execution.lifecycles[id].resolution
  {
    ReplayInv(events);
    hide Replay, Fold, ValidChain, CanonicalInv, DeltasDistinct, DeltasChained, DeltasAccepted, ReachedBy;
  }

  // ----- Equal heads, equal states -----

  lemma SameDocuments(c: Option<CanonicalDocument>, p: Payload, q: Payload, e: Envelope, f: Envelope)
    requires Canonized(p) == Canonized(q) && e.sequence == f.sequence && e.workspaceId == f.workspaceId && e.streamId == f.streamId
    ensures NextCanonical(c, p, e) == NextCanonical(c, q, f)
  {
    if p.DeltaAccepted? {
      assert Normalize(p.resultingDocument) == Normalize(q.resultingDocument);
      StateHashNames(p.resultingDocument, q.resultingDocument);
    } else if p.RunCreated? {
      assert Normalize(p.initialDocument) == Normalize(q.initialDocument);
    }
    hide Normalize, StateHash;
  }

  lemma SameChanges(o: Option<Operational>, p: Payload, q: Payload, e: Envelope, f: Envelope)
    requires Canonized(p) == Canonized(q) && e.sequence == f.sequence && e.workspaceId == f.workspaceId && e.streamId == f.streamId
    ensures ReduceOperationalState(o, p, e) == ReduceOperationalState(o, q, f)
  {
    hide Normalize, Execute, AcceptProposal;
    assert p == q || (p.RunCreated? && q.RunCreated?) || (p.DeltaAccepted? && q.DeltaAccepted?);
  }

  lemma SameEventSameStep(s: Projections, a: Sealed, b: Sealed)
    requires SameEvent(a, b)
    ensures ReplayOne(s, a) == ReplayOne(s, b)
  {
    var e, f := a.envelope, b.envelope;
    assert CanonizedEnvelope(e).sequence == CanonizedEnvelope(f).sequence;
    assert CanonizedEnvelope(e).workspaceId == CanonizedEnvelope(f).workspaceId && CanonizedEnvelope(e).streamId == CanonizedEnvelope(f).streamId;
    SameDocuments(s.canonical, e.payload, f.payload, e, f);
    SameChanges(s.operational, e.payload, f.payload, e, f);
    SameNames(e.payload, f.payload);
    hide NextCanonical, ReduceOperationalState, NamesItsRun, OnRunStream, RunOf, WorkspaceOf, Canonized;
  }

  lemma SameNames(p: Payload, q: Payload)
    requires Canonized(p) == Canonized(q)
    ensures NamesItsRun(p) == NamesItsRun(q) && OnRunStream(p) == OnRunStream(q) && RunOf(p) == RunOf(q) && WorkspaceOf(p) == WorkspaceOf(q)
  {
    hide Normalize;
    assert p == q || (p.RunCreated? && q.RunCreated?) || (p.DeltaAccepted? && q.DeltaAccepted?);
  }

  lemma {:induction false} SameEventsSameFold(a: seq<Sealed>, b: seq<Sealed>)
    requires |a| == |b| && forall k :: 0 <= k < |a| ==> SameEvent(a[k], b[k])
    ensures Fold(a) == Fold(b)
  {
    hide SameEvent, ReplayOne;
    if a != [] {
      var n := |a| - 1;
      SameEventsSameFold(a[..n], b[..n]);
      if Fold(a[..n]).Replayed? {
        SameEventSameStep(Fold(a[..n]).value, a[n], b[n]);
      }
    }
  }

  /** Two valid chains with the same head hash replay to the same projections. */
  lemma EqualHeadsEqualRuns(a: seq<Sealed>, b: seq<Sealed>)
    requires ValidChain(a) && ValidChain(b) && a != [] && b != []
    requires a[|a| - 1].envelopeHash == b[|b| - 1].envelopeHash
    ensures Replay(a) == Replay(b)
  {
    HeadPinsHistory(a, b, |b| - 1);
    assert SameEvent(a[0], b[0]);
    hide Fold;
    SameEventsSameFold(a, b);
  }

  // ----- Deltas and the ledger -----

  /** The envelope is the next one of the stream that both projections are of. */
  predicate ComesNextHere(e: Envelope, c: CanonicalDocument, o: Operational) {
    && e.workspaceId == c.workspaceId && e.workspaceId == o.workspaceId && e.streamId == c.runId && e.streamId == o.runId
    && e.sequence == o.lastEventSequence + 1 && e.sequence > c.lastCanonicalEventSequence
  }

  /** The proposal is on record, with this digest and not yet decided for good. */
  predicate OpenProposal(o: Operational, id: string, digest: string) {
    id in o.proposals && o.proposals[id].proposalDigest == digest && Open(o.proposals[id].status)
  }

  /** The document of an accepted delta is its own clone, and its hash names it. */
  lemma DeltaDocument(base: Json, ops: seq<DeltaEngine.Operation>, scope: Pointers.Scope)
    requires DeltaEngine.DeltaOutcome(base, ops, scope).Accepted?
    ensures var outcome := DeltaEngine.DeltaOutcome(base, ops, scope);
            StateHash(outcome.document) == outcome.stateHash && DeepClone(outcome.document) == outcome.document
  {
    DeltaLaws.AcceptedDocument(base, ops, scope);
    DeltaLaws.AcceptedWhen(base, ops, scope);
    hide DeltaEngine.DeltaOutcome, DeltaEngine.Steps, StateHash;
  }

  lemma CanonicalAfterDelta(c: CanonicalDocument, p: Payload, e: Envelope)
    requires p.DeltaAccepted? && StateHash(p.resultingDocument) == p.resultingStateHash && DeepClone(p.resultingDocument) == p.resultingDocument
    ensures NextCanonical(Some(c), p, e).Replayed? <==>
            && e.sequence > c.lastCanonicalEventSequence && e.workspaceId == c.workspaceId && e.streamId == c.runId
            && p.priorStateHash == c.stateHash
    ensures NextCanonical(Some(c), p, e).Replayed? ==>
              NextCanonical(Some(c), p, e).value
              == Some(CanonicalDocument(c.workspaceId, c.runId, c.revision + 1, p.resultingDocument, p.resultingStateHash, Some(p.proposalId), e.sequence))
  {
    hide StateHash, DeepClone;
  }

  lemma OperationalAfterDelta(o: Operational, p: Payload, e: Envelope)
    requires p.DeltaAccepted?
    ensures var r := ReduceOperationalState(Some(o), p, e);
            && (r.Replayed? <==>
                  && e.workspaceId == o.workspaceId && e.streamId == o.runId && e.sequence == o.lastEventSequence + 1
                  && OpenProposal(o, p.proposalId, p.proposalDigest))
            && (r.Replayed? ==>
                  r.value == o.(proposals := o.proposals[p.proposalId := o.proposals[p.proposalId].(status := Decided(Accepted))],
                                eventCount := o.eventCount + 1, contextEpoch := o.contextEpoch + 1, lastEventSequence := e.sequence))
  {
    hide Execute;
  }

  /**
   * The event that records an accepted delta on the current document is accepted by a replay exactly
   * when it comes next in the stream, starts from the current hash, and is for an open proposal.
   * Then the document and the hash are those of the delta, one revision later, and the proposal is
   * accepted; nothing else changes but the counters.
   */
  lemma AcceptedDeltaIsRecorded(s: Projections, item: Sealed, ops: seq<DeltaEngine.Operation>, scope: Pointers.Scope)
    requires s.canonical.Some? && s.operational.Some?
    requires DeltaEngine.DeltaOutcome(s.canonical.value.document, ops, scope).Accepted?
    requires var (outcome, p) := (DeltaEngine.DeltaOutcome(s.canonical.value.document, ops, scope), item.envelope.payload);
             p.DeltaAccepted? && p.resultingStateHash == outcome.stateHash && p.resultingDocument == outcome.document
    ensures var (c, o, e, p) := (s.canonical.value, s.operational.value, item.envelope, item.envelope.payload);
            ReplayOne(s, item).Replayed? <==>
            ComesNextHere(e, c, o) && p.priorStateHash == c.stateHash && OpenProposal(o, p.proposalId, p.proposalDigest)
    ensures ReplayOne(s, item).Replayed? ==>
              var (c, o, e, p) := (s.canonical.value, s.operational.value, item.envelope, item.envelope.payload);
              var outcome := DeltaEngine.DeltaOutcome(c.document, ops, scope);
              && p.proposalId in o.proposals
              && ReplayOne(s, item).value == Projections(
                   Some(CanonicalDocument(c.workspaceId, c.runId, c.revision + 1, outcome.document, outcome.stateHash, Some(p.proposalId), e.sequence)),
                   Some(o.(proposals := o.proposals[p.proposalId := o.proposals[p.proposalId].(status := Decided(Accepted))],
                           eventCount := o.eventCount + 1, contextEpoch := o.contextEpoch + 1, lastEventSequence := e.sequence)))
  {
    hide DeltaEngine.DeltaOutcome, DeepClone, StateHash, ReplayOne, NextCanonical, ReduceOperationalState;
    var c, o, e, p := s.canonical.value, s.operational.value, item.envelope, item.envelope.payload;
    DeltaDocument(c.document, ops, scope);
    CanonicalAfterDelta(c, p, e);
    OperationalAfterDelta(o, p, e);
    ReplayOfDelta(s, item);
  }

  lemma ReplayOfDelta(s: Projections, item: Sealed)
    requires item.envelope.payload.DeltaAccepted?
    ensures var (canonical, operational) := (NextCanonical(s.canonical, item.envelope.payload, item.envelope),
                                             ReduceOperationalState(s.operational, item.envelope.payload, item.envelope));
            ReplayOne(s, item) == if canonical.Refused? then Refused(canonical.error)
                                  else if operational.Refused? then Refused(operational.error)
                                  else Replayed(Projections(canonical.value, Some(operational.value)))
  {
    assert OnRunStream(item.envelope.payload) && !NamesItsRun(item.envelope.payload);
    hide NextCanonical, ReduceOperationalState;
  }
}
