/** Sealed events and the hash chain they form (packages/domain/src/events.ts). */
module Events {
  import opened Wrappers
  import Identity
  import Canonical
  import Execution
  import ExecutionReducer

  // ----- Payloads -----

  datatype Decision = Accepted | Rejected | Conflicted | Quarantined | ApprovalRequired

  datatype Payload =
    | WorkspaceCreated(workspaceId: string, authorityPrincipalId: string, initialGrantDigest: string,
                       authorityConsumptionMarker: string, activePolicyDigest: string)
    | PolicyReferenceChanged(workspaceId: string, activePolicyDigest: string)
    | WorkspaceAdmissionRecorded(workspaceId: string, proposalDigest: string, decisionEventId: string, state: Decision,
                                 quotaId: string, quotaDigest: string, consumed: bool)
    | RunCreated(workspaceId: string, runId: string, initialDocument: Canonical.Json)
    | LegacyTaskCreated(workspaceId: string, runId: string, taskId: Identity.TaskId, title: string)
    | ProposalSubmitted(workspaceId: string, runId: string, proposalId: string, proposalDigest: string)
    | AdmissionDecisionRecorded(workspaceId: string, runId: string, proposalId: string, proposalDigest: string,
                                state: Decision, provenanceDigest: string, artifactDigest: string)
    | LegacyReceiptRecorded(workspaceId: string, runId: string, receiptId: string, receiptDigest: string,
                            outcome: Identity.TerminalState)
    | DeltaAccepted(workspaceId: string, runId: string, proposalId: string, proposalDigest: string,
                    priorStateHash: Canonical.Hash, resultingStateHash: Canonical.Hash, resultingDocument: Canonical.Json)
    | LegacyTaskResolved(workspaceId: string, runId: string, taskId: Identity.TaskId, resolution: Identity.TerminalState)
    | ForkCreated(workspaceId: string, runId: string, forkPinDigest: string)
    | ContextManifestPublished(workspaceId: string, runId: string, contextManifestCoreDigest: string)
    | TaskExecution(event: Execution.Event)
    | Malformed(name: EventType, text: string)
    | Unsupported(text: string)

  /** The name of an event; the fifteen execution events are named by their bodies. */
  datatype EventType =
    | WorkspaceCreatedType | PolicyReferenceChangedType | WorkspaceAdmissionRecordedType
    | RunCreatedType | LegacyTaskCreatedType | ProposalSubmittedType | AdmissionDecisionRecordedType
    | LegacyReceiptRecordedType | DeltaAcceptedType | LegacyTaskResolvedType | ForkCreatedType | ContextManifestPublishedType
    | TaskExecutionType(body: BodyType)
    | NamedType(text: string)

  datatype BodyType =
    | TaskCreatedType | TaskActivatedType | DependencyAddedType
    | PreparedType | TransitionType | ReceiptType | AbortedType | ResolvedType
    | PlanProposedType | PlanRevisedType | PlanRejectedType | PlanAdoptedType
    | WorkflowStartedType | WorkflowPlanBoundType | WorkflowStoppedType

  function BodyTypeOf(b: Execution.Body): BodyType {
    match b
    case TaskCreated(_) => TaskCreatedType
    case TaskActivated(_) => TaskActivatedType
    case DependencyAdded(_) => DependencyAddedType
    case ExecutionPrepared(_) => PreparedType
    case ExecutionTransition(_, _, _, _, _) => TransitionType
    case ExecutionReceipt(_, _, _, _, _) => ReceiptType
    case ExecutionAborted(_, _, _, _, _) => AbortedType
    case TaskResolved(_) => ResolvedType
    case PlanProposed(_, _) => PlanProposedType
    case PlanRevised(_, _) => PlanRevisedType
    case PlanRejected(_, _, _) => PlanRejectedType
    case PlanAdopted(_, _) => PlanAdoptedType
    case WorkflowStarted(_) => WorkflowStartedType
    case WorkflowPlanBound(_, _, _) => WorkflowPlanBoundType
    case WorkflowStopped(_, _, _) => WorkflowStoppedType
  }

  function TypeOf(p: Payload): EventType {
    match p
    case WorkspaceCreated(_, _, _, _, _) => WorkspaceCreatedType
    case PolicyReferenceChanged(_, _) => PolicyReferenceChangedType
    case WorkspaceAdmissionRecorded(_, _, _, _, _, _, _) => WorkspaceAdmissionRecordedType
    case RunCreated(_, _, _) => RunCreatedType
    case LegacyTaskCreated(_, _, _, _) => LegacyTaskCreatedType
    case ProposalSubmitted(_, _, _, _) => ProposalSubmittedType
    case AdmissionDecisionRecorded(_, _, _, _, _, _, _) => AdmissionDecisionRecordedType
    case LegacyReceiptRecorded(_, _, _, _, _) => LegacyReceiptRecordedType
    case DeltaAccepted(_, _, _, _, _, _, _) => DeltaAcceptedType
    case LegacyTaskResolved(_, _, _, _) => LegacyTaskResolvedType
    case ForkCreated(_, _, _) => ForkCreatedType
    case ContextManifestPublished(_, _, _) => ContextManifestPublishedType
    case TaskExecution(e) => TaskExecutionType(BodyTypeOf(e.body))
    case Malformed(name, _) => name
    case Unsupported(text) => NamedType(text)
  }

  predicate NoneEmpty(texts: seq<string>) {
    forall t :: t in texts ==> t != ""
  }

  /** The fields of a payload that must not be empty. */
  predicate FieldsPresent(p: Payload) {
    match p
    case WorkspaceCreated(a, b, c, d, e) => NoneEmpty([a, b, c, d, e])
    case PolicyReferenceChanged(a, b) => NoneEmpty([a, b])
    case WorkspaceAdmissionRecorded(a, b, c, _, d, e, _) => NoneEmpty([a, b, c, d, e])
    case RunCreated(a, b, _) => NoneEmpty([a, b])
    case LegacyTaskCreated(a, b, id, c) => NoneEmpty([a, b, c]) && id != Identity.Named("")
    case ProposalSubmitted(a, b, c, d) => NoneEmpty([a, b, c, d])
    case AdmissionDecisionRecorded(a, b, c, d, _, e, f) => NoneEmpty([a, b, c, d, e, f])
    case LegacyReceiptRecorded(a, b, c, d, _) => NoneEmpty([a, b, c, d])
    case DeltaAccepted(a, b, c, d, _, _, _) => NoneEmpty([a, b, c, d])
    case LegacyTaskResolved(a, b, id, _) => NoneEmpty([a, b]) && id != Identity.Named("")
    case ForkCreated(a, b, c) => NoneEmpty([a, b, c])
    case ContextManifestPublished(a, b, c) => NoneEmpty([a, b, c])
    case _ => true
  }

  /** `parseDomainEventPayloadV1` accepts the payload. */
  ghost predicate Parses(p: Payload) {
    match p
    case TaskExecution(e) => Execution.ParseCheck(e).Pass?
    case Malformed(_, _) => false
    case Unsupported(_) => false
    case _ => FieldsPresent(p)
  }

  method ParsePayload(p: Payload) returns (ok: bool)
    ensures ok == Parses(p)
  {
    match p
    case TaskExecution(e) =>
      var check := ExecutionReducer.ParseEvent(e);
      ok := check.Pass?;
    case Malformed(_, _) => ok := false;
    case Unsupported(_) => ok := false;
    case _ => ok := FieldsPresent(p);
  }

  /** The workspace a payload names. */
  function WorkspaceOf(p: Payload): string {
    match p
    case TaskExecution(e) => e.workspaceId
    case Malformed(_, _) => ""
    case Unsupported(_) => ""
    case _ => p.workspaceId
  }

  // ----- Hashes -----

  datatype StreamKind = WorkspaceStream | RunStream | OtherStream(text: string)

  datatype Envelope = Envelope(
    schemaVersion: string,
    streamKind: StreamKind,
    workspaceId: string,
    streamId: string,
    sequence: int,
    eventId: string,
    eventType: EventType,
    principalId: string,
    causationId: string,
    correlationId: string,
    idempotencyKey: string,
    priorEnvelopeHash: Option<Hash>,
    payloadHash: Hash,
    payload: Payload)

  /** Digests by what was hashed: the constructor stands for the domain. */
  datatype Hash = EnvelopeHash(envelope: Envelope) | PayloadHash(payload: Payload) | OtherHash(text: string)

  datatype Sealed = Sealed(envelope: Envelope, envelopeHash: Hash)

  /** What the canonical text of a payload keeps: all but the sign of the zeros in its document. */
  function Canonized(p: Payload): Payload {
    match p
    case RunCreated(_, _, document) => p.(initialDocument := Canonical.Normalize(document))
    case DeltaAccepted(_, _, _, _, _, _, document) => p.(resultingDocument := Canonical.Normalize(document))
    case _ => p
  }

  function HashPayload(p: Payload): Hash {
    PayloadHash(Canonized(p))
  }

  function CanonizedEnvelope(e: Envelope): Envelope {
    e.(payload := Canonized(e.payload))
  }

  function HashEnvelope(e: Envelope): Hash {
    EnvelopeHash(CanonizedEnvelope(e))
  }

  // ----- The chain -----

  datatype ChainError =
    | ChainEmpty | VersionUnsupported | IdentityInvalid | ChainInvalid | EnvelopeInvalid
    | PayloadHashInvalid | EnvelopeHashInvalid | UnsupportedEventType | MalformedEvent | PayloadInvalid | InvalidGenesis

  predicate NamedFields(e: Envelope) {
    NoneEmpty([e.eventId, e.principalId, e.causationId, e.correlationId, e.idempotencyKey]) && e.eventType != NamedType("")
  }

  /** What is wrong with one event, given the first envelope, its place and the hash before it. */
  ghost function ItemError(first: Envelope, item: Sealed, index: nat, prior: Option<Hash>): Option<ChainError> {
    var e := item.envelope;
    if e.schemaVersion != "1" then Some(VersionUnsupported)
    else if e.streamKind != first.streamKind || e.workspaceId != first.workspaceId || e.streamId != first.streamId then Some(IdentityInvalid)
    else if e.sequence != index + 1 || e.priorEnvelopeHash != prior then Some(ChainInvalid)
    else if !NamedFields(e) then Some(EnvelopeInvalid)
    else if HashPayload(e.payload) != e.payloadHash then Some(PayloadHashInvalid)
    else if HashEnvelope(e) != item.envelopeHash then Some(EnvelopeHashInvalid)
    else if !Parses(e.payload) then Some(if e.payload.Unsupported? then UnsupportedEventType else MalformedEvent)
    else if TypeOf(e.payload) != e.eventType then Some(PayloadInvalid)
    else None
  }

  /** The hash before the event at a place. */
  function PriorHash(events: seq<Sealed>, i: nat): Option<Hash>
    requires i <= |events|
  {
    if i == 0 then None else Some(events[i - 1].envelopeHash)
  }

  ghost function ErrorAt(events: seq<Sealed>, i: nat): Option<ChainError>
    requires i < |events|
  {
    ItemError(events[0].envelope, events[i], i, PriorHash(events, i))
  }

  ghost function FirstError(events: seq<Sealed>, i: nat): Option<ChainError>
    requires i <= |events|
    decreases |events| - i
  {
    if i == |events| then None
    else if ErrorAt(events, i).Some? then ErrorAt(events, i)
    else FirstError(events, i + 1)
  }

  function HeaderError(first: Envelope): Option<ChainError> {
    if first.streamKind.OtherStream? || first.schemaVersion != "1" then Some(VersionUnsupported)
    else if first.streamKind.WorkspaceStream? && first.streamId != first.workspaceId then Some(IdentityInvalid)
    else None
  }

  function GenesisType(kind: StreamKind): EventType {
    if kind.WorkspaceStream? then WorkspaceCreatedType else RunCreatedType
  }

  /** The first error of a chain. */
  ghost function ChainFault(events: seq<Sealed>): Option<ChainError> {
    if events == [] then Some(ChainEmpty)
    else
      var first := events[0].envelope;
      if HeaderError(first).Some? then HeaderError(first)
      else if FirstError(events, 0).Some? then FirstError(events, 0)
      else if first.eventType != GenesisType(first.streamKind) || first.priorEnvelopeHash.Some? || first.sequence != 1 then Some(InvalidGenesis)
      else None
  }

  /** `verifyEventChain`. */
  method VerifyEventChain(events: seq<Sealed>) returns (fault: Option<ChainError>)
    ensures fault == ChainFault(events)
  {
    hide NamedFields, HashPayload, HashEnvelope, Parses, TypeOf;
    if |events| == 0 {
      return Some(ChainEmpty);
    }
    var first := events[0].envelope;
    if HeaderError(first).Some? {
      return HeaderError(first);
    }
    var prior: Option<Hash> := None;
    for index := 0 to |events|
      invariant prior == PriorHash(events, index)
      invariant FirstError(events, 0) == FirstError(events, index)
    {
      var error := CheckItem(first, events[index], index, prior);
      if error.Some? {
        return error;
      }
      prior := Some(events[index].envelopeHash);
    }
    if first.eventType != GenesisType(first.streamKind) || first.priorEnvelopeHash.Some? || first.sequence != 1 {
      return Some(InvalidGenesis);
    }
    fault := None;
  }

  method CheckItem(first: Envelope, item: Sealed, index: nat, prior: Option<Hash>) returns (error: Option<ChainError>)
    ensures error == ItemError(first, item, index, prior)
  {
    hide NamedFields, Canonized, Parses, TypeOf;
    var e := item.envelope;
    if e.schemaVersion != "1" {
      return Some(VersionUnsupported);
    }
    if e.streamKind != first.streamKind || e.workspaceId != first.workspaceId || e.streamId != first.streamId {
      return Some(IdentityInvalid);
    }
    if e.sequence != index + 1 || e.priorEnvelopeHash != prior {
      return Some(ChainInvalid);
    }
    if !NamedFields(e) {
      return Some(EnvelopeInvalid);
    }
    if HashPayload(e.payload) != e.payloadHash {
      return Some(PayloadHashInvalid);
    }
    if HashEnvelope(e) != item.envelopeHash {
      return Some(EnvelopeHashInvalid);
    }
    var parses := ParsePayload(e.payload);
    if !parses {
      return Some(if e.payload.Unsupported? then UnsupportedEventType else MalformedEvent);
    }
    error := if TypeOf(e.payload) != e.eventType then Some(PayloadInvalid) else None;
  }

  ghost predicate ValidChain(events: seq<Sealed>) {
    ChainFault(events).None?
  }

  predicate GoodGenesis(first: Envelope) {
    HeaderError(first).None? && first.eventType == GenesisType(first.streamKind)
  }

  lemma {:induction false} FirstErrorNone(events: seq<Sealed>, i: nat)
    requires i <= |events|
    ensures FirstError(events, i).None? <==> forall j :: i <= j < |events| ==> ErrorAt(events, j).None?
    decreases |events| - i
  {
    hide ErrorAt;
    if i < |events| {
      FirstErrorNone(events, i + 1);
    }
  }

  /** A chain is valid exactly when it starts with a genesis event and each event fits the one before it. */
  lemma ValidChainMeans(events: seq<Sealed>)
    ensures ValidChain(events) <==>
            && events != []
            && GoodGenesis(events[0].envelope)
            && forall i :: 0 <= i < |events| ==> ErrorAt(events, i).None?
  {
    if events != [] {
      FirstErrorNone(events, 0);
      if ErrorAt(events, 0).None? {
        FirstItem(events);
      }
      hide ErrorAt, HeaderError;
    }
  }

  lemma FirstItem(events: seq<Sealed>)
    requires events != [] && ErrorAt(events, 0).None?
    ensures events[0].envelope.priorEnvelopeHash.None? && events[0].envelope.sequence == 1
  {
  }

  // ----- The head pins the history -----

  /** Equal up to the sign of the zeros in their documents. */
  predicate SameEvent(a: Sealed, b: Sealed) {
    CanonizedEnvelope(a.envelope) == CanonizedEnvelope(b.envelope) && a.envelopeHash == b.envelopeHash
  }

  lemma ItemFacts(events: seq<Sealed>, i: nat)
    requires ValidChain(events) && i < |events|
    ensures var e := events[i].envelope;
            && e.sequence == i + 1
            && e.priorEnvelopeHash == PriorHash(events, i)
            && events[i].envelopeHash == HashEnvelope(e)
            && e.streamKind == events[0].envelope.streamKind
            && e.workspaceId == events[0].envelope.workspaceId && e.streamId == events[0].envelope.streamId
            && Parses(e.payload) && TypeOf(e.payload) == e.eventType
  {
    ValidChainMeans(events);
    hide ValidChain, Parses, TypeOf, NamedFields, HashPayload, HashEnvelope;
    assert ErrorAt(events, i).None?;
  }

  lemma {:induction false} SameHashSameHistory(a: seq<Sealed>, i: nat, b: seq<Sealed>, j: nat)
    requires ValidChain(a) && ValidChain(b) && i < |a| && j < |b| && a[i].envelopeHash == b[j].envelopeHash
    ensures i == j && forall k :: 0 <= k <= i ==> SameEvent(a[k], b[k])
  {
    ItemFacts(a, i);
    ItemFacts(b, j);
    hide ValidChain, Canonized, Parses, TypeOf;
    if i > 0 {
      SameHashSameHistory(a, i - 1, b, j - 1);
    }
  }

  /** If the head hash of one chain occurs in another, the first chain is a prefix of the second. */
  lemma HeadPinsHistory(a: seq<Sealed>, b: seq<Sealed>, j: nat)
    requires ValidChain(a) && ValidChain(b) && j < |b|
    ensures a != []
    ensures a[|a| - 1].envelopeHash == b[j].envelopeHash ==>
              |a| == j + 1 && forall k :: 0 <= k < |a| ==> SameEvent(a[k], b[k])
  {
    ValidChainMeans(a);
    hide ValidChain, SameEvent;
    if a[|a| - 1].envelopeHash == b[j].envelopeHash {
      SameHashSameHistory(a, |a| - 1, b, j);
    }
  }

  // ----- Sealing -----

  /** `sealEventEnvelope`: fills in the payload hash and hashes the whole. */
  function SealEventEnvelope(draft: Envelope): Sealed {
    var full := draft.(payloadHash := HashPayload(draft.payload));
    Sealed(full, HashEnvelope(full))
  }

  /** What a draft must say to come next in a chain. */
  ghost predicate ComesNext(events: seq<Sealed>, draft: Envelope)
    requires events != []
  {
    var first := events[0].envelope;
    && draft.schemaVersion == "1"
    && draft.streamKind == first.streamKind && draft.workspaceId == first.workspaceId && draft.streamId == first.streamId
    && draft.sequence == |events| + 1 && draft.priorEnvelopeHash == Some(events[|events| - 1].envelopeHash)
    && NamedFields(draft) && Parses(draft.payload) && TypeOf(draft.payload) == draft.eventType
  }

  /** Appending a sealed draft keeps a chain valid exactly when the draft comes next. */
  lemma SealedEventExtends(events: seq<Sealed>, draft: Envelope)
    requires ValidChain(events)
    ensures events != [] && (ValidChain(events + [SealEventEnvelope(draft)]) <==> ComesNext(events, draft))
  {
    var item := SealEventEnvelope(draft);
    var more := events + [item];
    ValidChainMeans(events);
    ValidChainMeans(more);
    forall i | 0 <= i < |events| ensures ErrorAt(more, i) == ErrorAt(events, i) {
      assert more[i] == events[i] && more[0] == events[0] && PriorHash(more, i) == PriorHash(events, i);
    }
    assert NamedFields(item.envelope) <==> NamedFields(draft);
    hide ValidChain, Parses, TypeOf, NamedFields, HashPayload, HashEnvelope, GoodGenesis;
    assert ErrorAt(more, |events|).None? <==> ComesNext(events, draft);
  }

  datatype WorkspaceCursor = WorkspaceCursor(workspaceId: string, workspaceSequence: int, workspaceEnvelopeHash: Hash, workspaceContextEpoch: int)

  datatype RunCursor = RunCursor(workspace: WorkspaceCursor, runId: string, runSequence: int, runEnvelopeHash: Hash, runContextEpoch: int)

  function Genesis(kind: StreamKind, workspaceId: string, streamId: string, principalId: string, commandId: string, payload: Payload): Sealed {
    SealEventEnvelope(Envelope("1", kind, workspaceId, streamId, 1, commandId + ":1", TypeOf(payload), principalId,
                               commandId, commandId, commandId, None, OtherHash(""), payload))
  }

  /** `createWorkspaceGenesis`. */
  function CreateWorkspaceGenesis(workspaceId: string, authorityPrincipalId: string, initialGrantDigest: string,
                                  authorityConsumptionMarker: string, activePolicyDigest: string, commandId: string): (Sealed, WorkspaceCursor) {
    var payload := WorkspaceCreated(workspaceId, authorityPrincipalId, initialGrantDigest, authorityConsumptionMarker, activePolicyDigest);
    var event := Genesis(WorkspaceStream, workspaceId, workspaceId, authorityPrincipalId, commandId, payload);
    (event, WorkspaceCursor(workspaceId, 1, event.envelopeHash, 0))
  }

  /** `createRunGenesis`. */
  function CreateRunGenesis(cursor: WorkspaceCursor, runId: string, initialDocument: Canonical.Json,
                            principalId: string, commandId: string): (Sealed, RunCursor) {
    var payload := RunCreated(cursor.workspaceId, runId, initialDocument);
    var event := Genesis(RunStream, cursor.workspaceId, runId, principalId, commandId, payload);
    (event, RunCursor(cursor, runId, 1, event.envelopeHash, 0))
  }

  lemma GenesisChain(kind: StreamKind, workspaceId: string, streamId: string, principalId: string, commandId: string, payload: Payload)
    requires kind.WorkspaceStream? ==> streamId == workspaceId
    requires !kind.OtherStream? && TypeOf(payload) == GenesisType(kind)
    ensures ValidChain([Genesis(kind, workspaceId, streamId, principalId, commandId, payload)])
       <==> NoneEmpty([principalId, commandId]) && Parses(payload)
  {
    var item := Genesis(kind, workspaceId, streamId, principalId, commandId, payload);
    ValidChainMeans([item]);
    assert NamedFields(item.envelope) <==> NoneEmpty([principalId, commandId]) by {
      assert principalId in [principalId, commandId] && commandId in [principalId, commandId];
      var e := item.envelope;
      assert forall t :: t in [e.eventId, e.principalId, e.causationId, e.correlationId, e.idempotencyKey]
                   <==> t == commandId + ":1" || t in [principalId, commandId];
    }
    hide ValidChain, Parses, TypeOf, NamedFields, NoneEmpty, Canonized;
    assert ErrorAt([item], 0).None? <==> NamedFields(item.envelope) && Parses(payload);
  }

  /** A workspace genesis is a valid chain exactly when its inputs are not empty, and its cursor names the head. */
  lemma WorkspaceGenesisValid(workspaceId: string, authorityPrincipalId: string, initialGrantDigest: string,
                              authorityConsumptionMarker: string, activePolicyDigest: string, commandId: string)
    ensures var (event, cursor) := CreateWorkspaceGenesis(workspaceId, authorityPrincipalId, initialGrantDigest, authorityConsumptionMarker, activePolicyDigest, commandId);
            && (ValidChain([event]) <==> NoneEmpty([workspaceId, authorityPrincipalId, initialGrantDigest, authorityConsumptionMarker, activePolicyDigest, commandId]))
            && cursor.workspaceEnvelopeHash == event.envelopeHash && cursor.workspaceSequence == event.envelope.sequence == 1
            && cursor.workspaceContextEpoch == event.envelope.sequence - 1
  {
    var texts := [workspaceId, authorityPrincipalId, initialGrantDigest, authorityConsumptionMarker, activePolicyDigest];
    var payload := WorkspaceCreated(workspaceId, authorityPrincipalId, initialGrantDigest, authorityConsumptionMarker, activePolicyDigest);
    GenesisChain(WorkspaceStream, workspaceId, workspaceId, authorityPrincipalId, commandId, payload);
    assert authorityPrincipalId in texts && commandId in [authorityPrincipalId, commandId] && authorityPrincipalId in [authorityPrincipalId, commandId];
    assert forall t :: t in texts + [commandId] <==> t in texts || t in [authorityPrincipalId, commandId];
    assert texts + [commandId] == [workspaceId, authorityPrincipalId, initialGrantDigest, authorityConsumptionMarker, activePolicyDigest, commandId];
    hide ValidChain, SealEventEnvelope;
  }

  lemma RunGenesisValid(cursor: WorkspaceCursor, runId: string, initialDocument: Canonical.Json, principalId: string, commandId: string)
    ensures var (event, result) := CreateRunGenesis(cursor, runId, initialDocument, principalId, commandId);
            && (ValidChain([event]) <==> NoneEmpty([cursor.workspaceId, runId, principalId, commandId]))
            && result.runEnvelopeHash == event.envelopeHash && result.runSequence == event.envelope.sequence == 1
            && result.runContextEpoch == event.envelope.sequence - 1 && result.workspace == cursor
  {
    GenesisChain(RunStream, cursor.workspaceId, runId, principalId, commandId, RunCreated(cursor.workspaceId, runId, initialDocument));
    var a, b := [cursor.workspaceId, runId], [principalId, commandId];
    assert forall t :: t in a + b <==> t in a || t in b;
    assert a + b == [cursor.workspaceId, runId, principalId, commandId];
    hide ValidChain, SealEventEnvelope;
  }
}
