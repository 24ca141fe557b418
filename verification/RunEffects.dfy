/** When the projections of a run take an event, and what it leaves (packages/domain/src/receipt.ts). */
module RunEffects {
  import opened Wrappers
  import opened Identity
  import opened Events
  import opened Ledger
  import opened RunLedger
  import opened LedgerLaws
  import C = Canonical
  import RunReplay

  /** A proposal is open exactly when it may still be accepted. */
  lemma OpenMayBeAccepted(status: AdmissionState)
    ensures Open(status) <==> MayFollow(status, Accepted)
  {
  }

  lemma SubmittedEffect(o: Operational, p: Payload, sequence: int)
    requires p.ProposalSubmitted?
    ensures Change(o, p, sequence).Replayed? <==> p.proposalId !in o.proposals
    ensures Change(o, p, sequence).Replayed? ==>
              Change(o, p, sequence).value == o.(proposals := o.proposals[p.proposalId := Proposal(Submitted, p.proposalDigest, None, None)])
  {
  }

  /** A decision is taken on a known proposal that it may follow, or that it accepts once more. */
  lemma DecidedEffect(o: Operational, p: Payload, sequence: int)
    requires p.AdmissionDecisionRecorded?
    ensures Change(o, p, sequence).Replayed? <==>
            && p.proposalId in o.proposals && o.proposals[p.proposalId].proposalDigest == p.proposalDigest
            && (MayFollow(o.proposals[p.proposalId].status, p.state)
                || (p.state.Accepted? && o.proposals[p.proposalId].status == Decided(Accepted)))
    ensures Change(o, p, sequence).Replayed? ==>
              Change(o, p, sequence).value
              == o.(proposals := o.proposals[p.proposalId := Proposal(Decided(p.state), p.proposalDigest, Some(p.provenanceDigest), Some(p.artifactDigest))])
  {
    if p.proposalId in o.proposals {
      CanMoveMeans(o.proposals[p.proposalId].status, p.state);
    }
  }

  /** A delta is recorded for a known proposal that may still be accepted. */
  lemma DeltaEffect(o: Operational, p: Payload, sequence: int)
    requires p.DeltaAccepted?
    ensures Change(o, p, sequence).Replayed? <==>
            && p.proposalId in o.proposals && o.proposals[p.proposalId].proposalDigest == p.proposalDigest
            && MayFollow(o.proposals[p.proposalId].status, Accepted)
    ensures Change(o, p, sequence).Replayed? ==>
              Change(o, p, sequence).value
              == o.(proposals := o.proposals[p.proposalId := o.proposals[p.proposalId].(status := Decided(Accepted))])
  {
    if p.proposalId in o.proposals {
      OpenMayBeAccepted(o.proposals[p.proposalId].status);
    }
  }

  lemma ReceiptEffect(o: Operational, p: Payload, sequence: int)
    requires p.LegacyReceiptRecorded?
    ensures Change(o, p, sequence).Replayed? <==> p.receiptId !in o.receipts
    ensures Change(o, p, sequence).Replayed? ==>
              Change(o, p, sequence).value == o.(receipts := o.receipts[p.receiptId := RecordedReceipt(p.receiptDigest, p.outcome)])
  {
  }

  /** A task of the older kind becomes a draft of work with its title for instructions. */
  lemma LegacyCreatedEffect(o: Operational, p: Payload, sequence: int)
    requires p.LegacyTaskCreated?
    ensures Change(o, p, sequence).Replayed? <==> p.taskId !in o.tasks
    ensures Change(o, p, sequence).Replayed? ==>
              Change(o, p, sequence).value
              == o.(tasks := o.tasks[p.taskId := p.title],
                    execution := o.execution.(
                      contracts := o.execution.contracts[p.taskId := Contract(p.taskId, p.title, p.title, [], Work, None)],
                      lifecycles := o.execution.lifecycles[p.taskId := Attempts.Draft]))
  {
  }

  lemma LegacyResolvedEffect(o: Operational, p: Payload, sequence: int)
    requires p.LegacyTaskResolved?
    ensures Change(o, p, sequence).Replayed? <==> p.taskId !in o.taskStates
    ensures Change(o, p, sequence).Replayed? ==>
              Change(o, p, sequence).value
              == o.(taskStates := o.taskStates[p.taskId := p.resolution],
                    execution := if p.taskId !in o.execution.contracts then o.execution
                                 else o.execution.(lifecycles := o.execution.lifecycles[p.taskId := Attempts.Resolved(p.resolution)]))
  {
  }

  /** An execution event is taken when its reducer takes it; titles and task states follow the projection. */
  lemma ExecutedEffect(o: Operational, p: Payload, sequence: int)
    requires p.TaskExecution?
    ensures Change(o, p, sequence).Replayed? <==> E.Step(o.execution, p.event, sequence).Ok?
    ensures Change(o, p, sequence).Replayed? ==>
              var (t, next) := (E.Step(o.execution, p.event, sequence).value, Change(o, p, sequence).value);
              && next == o.(execution := t, tasks := next.tasks, taskStates := next.taskStates)
              && (forall id :: id in next.tasks <==> id in t.contracts)
              && (forall id :: id in next.tasks ==> next.tasks[id] == t.contracts[id].title)
              && (forall id :: id in next.taskStates <==> id in o.taskStates || (id in t.lifecycles && t.lifecycles[id].Resolved?))
              && forall id :: id in next.taskStates ==>
                   next.taskStates[id] == if id in t.lifecycles && t.lifecycles[id].Resolved? then t.lifecycles[id].resolution else o.taskStates[id]
  {
    hide E.Step;
  }

  // ----- On the stream -----

  /** The envelope is the next one of the run. */
  predicate IsNext(o: Operational, e: Envelope) {
    e.workspaceId == o.workspaceId && e.streamId == o.runId && e.sequence == o.lastEventSequence + 1
  }

  /** An execution event and the creation of a run or of a task name the stream they are on. */
  predicate NamesStream(p: Payload, e: Envelope) {
    && (p.TaskExecution? ==> p.event.workspaceId == e.workspaceId && p.event.runId == e.streamId)
    && (p.RunCreated? || p.LegacyTaskCreated? ==> p.workspaceId == e.workspaceId && p.runId == e.streamId)
  }

  function Counted(o: Operational, sequence: int): Operational {
    o.(eventCount := o.eventCount + 1, contextEpoch := o.contextEpoch + 1, lastEventSequence := sequence)
  }

  lemma ChangeTaken(o: Operational, p: Payload, e: Envelope)
    requires !p.RunCreated?
    ensures var (r, change) := (ReduceOperationalState(Some(o), p, e), Change(Counted(o, e.sequence), p, e.sequence));
            (r.Replayed? <==> IsNext(o, e) && change.Replayed?) && (r.Replayed? ==> r == change)
  {
    hide Change;
  }

  lemma OnStreamTaken(s: Projections, item: Sealed)
    requires s.operational.Some? && !item.envelope.payload.RunCreated? && !item.envelope.payload.DeltaAccepted?
    ensures var (p, r) := (item.envelope.payload, ReduceOperationalState(s.operational, item.envelope.payload, item.envelope));
            && (ReplayOne(s, item).Replayed? <==> NamesStream(p, item.envelope) && OnRunStream(p) && r.Replayed?)
            && (ReplayOne(s, item).Replayed? ==> ReplayOne(s, item).value == Projections(s.canonical, Some(r.value)))
  {
    hide ReduceOperationalState;
  }

  /** An event without a document is taken exactly when it comes next, names its stream and changes the operational state. */
  lemma EventTaken(s: Projections, item: Sealed)
    requires s.operational.Some? && !item.envelope.payload.RunCreated? && !item.envelope.payload.DeltaAccepted?
    ensures var (o, e, p) := (s.operational.value, item.envelope, item.envelope.payload);
            var change := Change(Counted(o, e.sequence), p, e.sequence);
            && (ReplayOne(s, item).Replayed? <==> IsNext(o, e) && NamesStream(p, e) && change.Replayed?)
            && (ReplayOne(s, item).Replayed? ==> ReplayOne(s, item).value == Projections(s.canonical, Some(change.value)))
  {
    hide Change, ReplayOne, ReduceOperationalState, IsNext, NamesStream, OnRunStream;
    var o, e, p := s.operational.value, item.envelope, item.envelope.payload;
    if !OnRunStream(p) {
      OffStream(Counted(o, e.sequence), p, e.sequence);
    }
    ChangeTaken(o, p, e);
    OnStreamTaken(s, item);
  }

  lemma OffStream(o: Operational, p: Payload, sequence: int)
    requires !OnRunStream(p)
    ensures Change(o, p, sequence).Refused?
  {
  }

  lemma DocumentTaken(c: CanonicalDocument, p: Payload, e: Envelope)
    requires p.DeltaAccepted?
    ensures NextCanonical(Some(c), p, e).Replayed? <==>
            && e.workspaceId == c.workspaceId && e.streamId == c.runId && e.sequence > c.lastCanonicalEventSequence
            && p.priorStateHash == c.stateHash && p.resultingStateHash == C.StateHash(p.resultingDocument)
    ensures NextCanonical(Some(c), p, e).Replayed? ==>
              NextCanonical(Some(c), p, e).value
              == Some(CanonicalDocument(c.workspaceId, c.runId, c.revision + 1, C.Normalize(p.resultingDocument), p.resultingStateHash,
                                        Some(p.proposalId), e.sequence))
  {
    hide C.StateHash, C.Normalize;
  }

  lemma AcceptanceTaken(o: Operational, p: Payload, e: Envelope)
    requires p.DeltaAccepted?
    ensures ReduceOperationalState(Some(o), p, e).Replayed? <==>
            && IsNext(o, e) && p.proposalId in o.proposals && o.proposals[p.proposalId].proposalDigest == p.proposalDigest
            && MayFollow(o.proposals[p.proposalId].status, Accepted)
    ensures ReduceOperationalState(Some(o), p, e).Replayed? ==>
              ReduceOperationalState(Some(o), p, e).value
              == Counted(o, e.sequence).(proposals := o.proposals[p.proposalId := o.proposals[p.proposalId].(status := Decided(Accepted))])
  {
    hide Change, ReduceOperationalState, IsNext, MayFollow;
    ChangeTaken(o, p, e);
    DeltaEffect(Counted(o, e.sequence), p, e.sequence);
  }

  /** A delta is taken exactly when it comes next, starts from the current hash, names its document, and its proposal may be accepted. */
  lemma DeltaTaken(s: Projections, item: Sealed)
    requires s.canonical.Some? && s.operational.Some? && item.envelope.payload.DeltaAccepted?
    ensures var (c, o, e, p) := (s.canonical.value, s.operational.value, item.envelope, item.envelope.payload);
            ReplayOne(s, item).Replayed? <==>
            && IsNext(o, e) && e.workspaceId == c.workspaceId && e.streamId == c.runId && e.sequence > c.lastCanonicalEventSequence
            && p.priorStateHash == c.stateHash && p.resultingStateHash == C.StateHash(p.resultingDocument)
            && p.proposalId in o.proposals && o.proposals[p.proposalId].proposalDigest == p.proposalDigest
            && MayFollow(o.proposals[p.proposalId].status, Accepted)
    ensures ReplayOne(s, item).Replayed? ==>
              var (c, o, e, p) := (s.canonical.value, s.operational.value, item.envelope, item.envelope.payload);
              ReplayOne(s, item).value == Projections(
                Some(CanonicalDocument(c.workspaceId, c.runId, c.revision + 1, C.Normalize(p.resultingDocument), p.resultingStateHash,
                                       Some(p.proposalId), e.sequence)),
                Some(Counted(o, e.sequence).(proposals := o.proposals[p.proposalId := o.proposals[p.proposalId].(status := Decided(Accepted))])))
  {
    hide ReplayOne, NextCanonical, ReduceOperationalState, C.StateHash, C.Normalize, MayFollow, IsNext;
    DocumentTaken(s.canonical.value, item.envelope.payload, item.envelope);
    AcceptanceTaken(s.operational.value, item.envelope.payload, item.envelope);
    RunReplay.ReplayOfDelta(s, item);
  }

  /** A run is created once: no later event creates it again. */
  lemma CreatedOnce(s: Projections, item: Sealed)
    requires s.operational.Some? && item.envelope.payload.RunCreated?
    ensures ReplayOne(s, item).Refused?
  {
    hide C.StateHash, C.DeepClone;
  }

  /** A stream starts with the creation of its run. */
  lemma CreatedFirst(item: Sealed)
    requires ReplayOne(NOTHING, item).Replayed?
    ensures item.envelope.payload.RunCreated? && NamesStream(item.envelope.payload, item.envelope)
    ensures ReplayOne(NOTHING, item).value.operational.Some?
  {
    hide Change, C.StateHash, C.DeepClone;
  }

  lemma {:induction false} FoldNames(events: seq<Sealed>)
    requires events != [] && Fold(events).Replayed?
    ensures Fold(events).value.operational.Some?
    ensures forall i :: 0 <= i < |events| ==>
              NamesStream(events[i].envelope.payload, events[i].envelope) && (events[i].envelope.payload.RunCreated? <==> i == 0)
    decreases |events|
  {
    hide ReplayOne, NamesStream;
    var front, item := events[..|events| - 1], events[|events| - 1];
    if front == [] {
      CreatedFirst(item);
    } else {
      FoldNames(front);
      OneNames(Fold(front).value, item);
    }
  }

  lemma OneNames(s: Projections, item: Sealed)
    requires s.operational.Some? && ReplayOne(s, item).Replayed?
    ensures ReplayOne(s, item).value.operational.Some? && NamesStream(item.envelope.payload, item.envelope) && !item.envelope.payload.RunCreated?
  {
    if item.envelope.payload.RunCreated? {
      CreatedOnce(s, item);
    }
    hide NextCanonical, ReduceOperationalState;
  }

  /** In every replay only the first event creates the run, and each event that names a run names this one. */
  lemma EventsNameTheirRun(events: seq<Sealed>)
    requires Replay(events).Replayed?
    ensures forall i :: 0 <= i < |events| ==>
              NamesStream(events[i].envelope.payload, events[i].envelope) && (events[i].envelope.payload.RunCreated? <==> i == 0)
  {
    hide Fold, ChainFault, NamesStream;
    FoldNames(events);
  }
}
