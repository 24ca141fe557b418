/** A valid chain, event by event, and the streams that start with a new genesis (packages/domain/src/events.ts). */
module ChainLaws {
  import opened Wrappers
  import opened Events
  import opened Ledger
  import W = WorkspaceLedger
  import E = Execution

  /** The texts that no envelope may leave empty. */
  predicate Signed(e: Envelope) {
    && e.eventId != "" && e.principalId != "" && e.causationId != "" && e.correlationId != "" && e.idempotencyKey != ""
    && e.eventType != NamedType("")
  }

  /** An event fits at a place of its stream, after the hash before it, and its hashes are of what it says. */
  ghost predicate Fits(first: Envelope, item: Sealed, i: nat, prior: Option<Hash>) {
    var e := item.envelope;
    && e.schemaVersion == "1" && e.streamKind == first.streamKind && e.workspaceId == first.workspaceId && e.streamId == first.streamId
    && e.sequence == i + 1 && e.priorEnvelopeHash == prior && Signed(e)
    && e.payloadHash == PayloadHash(Canonized(e.payload)) && item.envelopeHash == EnvelopeHash(e.(payload := Canonized(e.payload)))
    && Parses(e.payload) && e.eventType == TypeOf(e.payload)
  }

  lemma FitsMeans(first: Envelope, item: Sealed, i: nat, prior: Option<Hash>)
    ensures ItemError(first, item, i, prior).None? <==> Fits(first, item, i, prior)
  {
    var e := item.envelope;
    assert NamedFields(e) <==> Signed(e) by {
      var texts := [e.eventId, e.principalId, e.causationId, e.correlationId, e.idempotencyKey];
      assert texts[0] in texts && texts[1] in texts && texts[2] in texts && texts[3] in texts && texts[4] in texts;
    }
    hide NamedFields, Signed, Canonized, Parses, TypeOf;
  }

  /**
   * A chain is valid exactly when it is not empty, starts with the genesis of a workspace or of a run,
   * and each event fits after the hash of the one before it.
   */
  lemma ValidChainExactly(events: seq<Sealed>)
    ensures ValidChain(events) <==>
            && events != []
            && (forall i :: 0 <= i < |events| ==>
                  Fits(events[0].envelope, events[i], i, if i == 0 then None else Some(events[i - 1].envelopeHash)))
            && var first := events[0].envelope;
               || (first.streamKind == WorkspaceStream && first.streamId == first.workspaceId && first.payload.WorkspaceCreated?)
               || (first.streamKind == RunStream && first.payload.RunCreated?)
  {
    ValidChainMeans(events);
    forall i | 0 <= i < |events|
      ensures ErrorAt(events, i).None? <==> Fits(events[0].envelope, events[i], i, if i == 0 then None else Some(events[i - 1].envelopeHash))
    {
      FitsMeans(events[0].envelope, events[i], i, PriorHash(events, i));
    }
    if events != [] && Fits(events[0].envelope, events[0], 0, None) {
      GenesisMeans(events[0].envelope);
    }
    hide ValidChain, ErrorAt, Fits, GoodGenesis;
    assert events != [] && (forall i :: 0 <= i < |events| ==> ErrorAt(events, i).None?) ==> ErrorAt(events, 0).None?;
  }

  lemma GenesisMeans(first: Envelope)
    requires first.schemaVersion == "1" && first.eventType == TypeOf(first.payload) && Parses(first.payload)
    ensures GoodGenesis(first) <==>
            || (first.streamKind == WorkspaceStream && first.streamId == first.workspaceId && first.payload.WorkspaceCreated?)
            || (first.streamKind == RunStream && first.payload.RunCreated?)
  {
  }

  /** Sealing fills in the payload hash and nothing else. */
  lemma SealKeepsTheDraft(draft: Envelope)
    ensures SealEventEnvelope(draft).envelope == draft.(payloadHash := SealEventEnvelope(draft).envelope.payloadHash)
  {
    hide HashPayload, HashEnvelope;
  }

  /** The genesis of a workspace replays to the workspace it was asked for. */
  lemma WorkspaceGenesisReplays(workspaceId: string, authorityPrincipalId: string, initialGrantDigest: string,
                                authorityConsumptionMarker: string, activePolicyDigest: string, commandId: string)
    requires workspaceId != "" && authorityPrincipalId != "" && initialGrantDigest != "" && authorityConsumptionMarker != ""
    requires activePolicyDigest != "" && commandId != ""
    ensures var event := CreateWorkspaceGenesis(workspaceId, authorityPrincipalId, initialGrantDigest,
                                               authorityConsumptionMarker, activePolicyDigest, commandId).0;
            W.Replay([event]) == Replayed(W.WorkspaceState(workspaceId, authorityPrincipalId, initialGrantDigest, authorityConsumptionMarker,
                                                           activePolicyDigest, map[], map[], 0, 1))
  {
    WorkspaceGenesisValid(workspaceId, authorityPrincipalId, initialGrantDigest, authorityConsumptionMarker, activePolicyDigest, commandId);
    var event := CreateWorkspaceGenesis(workspaceId, authorityPrincipalId, initialGrantDigest,
                                               authorityConsumptionMarker, activePolicyDigest, commandId).0;
    hide ChainFault, HashPayload, HashEnvelope;
    assert ValidChain([event]);
    assert [event][..0] == [] && W.Fold([]) == Replayed(None);
  }

  /** Every text that a payload needs is there. */
  predicate TextsPresent(p: Payload) {
    match p
    case WorkspaceCreated(workspaceId, principal, grant, marker, policy) =>
      workspaceId != "" && principal != "" && grant != "" && marker != "" && policy != ""
    case PolicyReferenceChanged(workspaceId, policy) => workspaceId != "" && policy != ""
    case WorkspaceAdmissionRecorded(workspaceId, proposal, decision, _, quota, quotaDigest, _) =>
      workspaceId != "" && proposal != "" && decision != "" && quota != "" && quotaDigest != ""
    case RunCreated(workspaceId, runId, _) => workspaceId != "" && runId != ""
    case LegacyTaskCreated(workspaceId, runId, taskId, title) =>
      workspaceId != "" && runId != "" && title != "" && taskId != Identity.Named("")
    case ProposalSubmitted(workspaceId, runId, proposal, digest) => workspaceId != "" && runId != "" && proposal != "" && digest != ""
    case AdmissionDecisionRecorded(workspaceId, runId, proposal, digest, _, provenance, artifact) =>
      workspaceId != "" && runId != "" && proposal != "" && digest != "" && provenance != "" && artifact != ""
    case LegacyReceiptRecorded(workspaceId, runId, receipt, digest, _) => workspaceId != "" && runId != "" && receipt != "" && digest != ""
    case DeltaAccepted(workspaceId, runId, proposal, digest, _, _, _) => workspaceId != "" && runId != "" && proposal != "" && digest != ""
    case LegacyTaskResolved(workspaceId, runId, taskId, _) => workspaceId != "" && runId != "" && taskId != Identity.Named("")
    case ForkCreated(workspaceId, runId, pin) => workspaceId != "" && runId != "" && pin != ""
    case ContextManifestPublished(workspaceId, runId, core) => workspaceId != "" && runId != "" && core != ""
    case TaskExecution(event) => true
    case Malformed(_, _) => false
    case Unsupported(_) => false
  }

  /** A payload parses exactly when its texts are present and, for an execution event, the event parses. */
  lemma ParsesExactly(p: Payload)
    ensures Parses(p) <==> TextsPresent(p) && (p.TaskExecution? ==> E.ParseCheck(p.event) == Pass)
  {
    hide E.ParseCheck, NoneEmpty;
    match p
    case WorkspaceCreated(a, b, c, d, e) => FiveTexts(a, b, c, d, e);
    case PolicyReferenceChanged(a, b) => TwoTexts(a, b);
    case WorkspaceAdmissionRecorded(a, b, c, _, d, e, _) => FiveTexts(a, b, c, d, e);
    case RunCreated(a, b, _) => TwoTexts(a, b);
    case LegacyTaskCreated(a, b, _, c) => ThreeTexts(a, b, c);
    case ProposalSubmitted(a, b, c, d) => FourTexts(a, b, c, d);
    case AdmissionDecisionRecorded(a, b, c, d, _, e, f) => SixTexts(a, b, c, d, e, f);
    case LegacyReceiptRecorded(a, b, c, d, _) => FourTexts(a, b, c, d);
    case DeltaAccepted(a, b, c, d, _, _, _) => FourTexts(a, b, c, d);
    case LegacyTaskResolved(a, b, _, _) => TwoTexts(a, b);
    case ForkCreated(a, b, c) => ThreeTexts(a, b, c);
    case ContextManifestPublished(a, b, c) => ThreeTexts(a, b, c);
    case _ =>
  }

  lemma OneMoreText(texts: seq<string>, t: string)
    ensures NoneEmpty(texts + [t]) <==> NoneEmpty(texts) && t != ""
  {
    if NoneEmpty(texts + [t]) {
      assert (texts + [t])[|texts|] == t && t in texts + [t];
      forall x | x in texts ensures x != "" {
        assert x in texts + [t];
      }
    }
  }

  lemma TwoTexts(a: string, b: string)
    ensures NoneEmpty([a, b]) <==> a != "" && b != ""
  {
    OneMoreText([a], b);
    OneMoreText([], a);
    assert [a] + [b] == [a, b] && [] + [a] == [a] && NoneEmpty([]);
  }

  lemma ThreeTexts(a: string, b: string, c: string)
    ensures NoneEmpty([a, b, c]) <==> a != "" && b != "" && c != ""
  {
    TwoTexts(a, b);
    OneMoreText([a, b], c);
    assert [a, b] + [c] == [a, b, c];
  }

  lemma FourTexts(a: string, b: string, c: string, d: string)
    ensures NoneEmpty([a, b, c, d]) <==> a != "" && b != "" && c != "" && d != ""
  {
    ThreeTexts(a, b, c);
    OneMoreText([a, b, c], d);
    assert [a, b, c] + [d] == [a, b, c, d];
  }

  lemma FiveTexts(a: string, b: string, c: string, d: string, e: string)
    ensures NoneEmpty([a, b, c, d, e]) <==> a != "" && b != "" && c != "" && d != "" && e != ""
  {
    FourTexts(a, b, c, d);
    OneMoreText([a, b, c, d], e);
    assert [a, b, c, d] + [e] == [a, b, c, d, e];
  }

  lemma SixTexts(a: string, b: string, c: string, d: string, e: string, f: string)
    ensures NoneEmpty([a, b, c, d, e, f]) <==> a != "" && b != "" && c != "" && d != "" && e != "" && f != ""
  {
    FiveTexts(a, b, c, d, e);
    OneMoreText([a, b, c, d, e], f);
    assert [a, b, c, d, e] + [f] == [a, b, c, d, e, f];
  }

  predicate SameKind(p: Payload, q: Payload) {
    && (p.WorkspaceCreated? <==> q.WorkspaceCreated?) && (p.PolicyReferenceChanged? <==> q.PolicyReferenceChanged?)
    && (p.WorkspaceAdmissionRecorded? <==> q.WorkspaceAdmissionRecorded?) && (p.RunCreated? <==> q.RunCreated?)
    && (p.LegacyTaskCreated? <==> q.LegacyTaskCreated?) && (p.ProposalSubmitted? <==> q.ProposalSubmitted?)
    && (p.AdmissionDecisionRecorded? <==> q.AdmissionDecisionRecorded?) && (p.LegacyReceiptRecorded? <==> q.LegacyReceiptRecorded?)
    && (p.DeltaAccepted? <==> q.DeltaAccepted?) && (p.LegacyTaskResolved? <==> q.LegacyTaskResolved?)
    && (p.ForkCreated? <==> q.ForkCreated?) && (p.ContextManifestPublished? <==> q.ContextManifestPublished?)
    && (p.TaskExecution? <==> q.TaskExecution?)
  }

  predicate SameBody(a: E.Body, b: E.Body) {
    && (a.TaskCreated? <==> b.TaskCreated?) && (a.TaskActivated? <==> b.TaskActivated?)
    && (a.DependencyAdded? <==> b.DependencyAdded?) && (a.ExecutionPrepared? <==> b.ExecutionPrepared?)
    && (a.ExecutionTransition? <==> b.ExecutionTransition?) && (a.ExecutionReceipt? <==> b.ExecutionReceipt?)
    && (a.ExecutionAborted? <==> b.ExecutionAborted?) && (a.TaskResolved? <==> b.TaskResolved?)
    && (a.PlanProposed? <==> b.PlanProposed?) && (a.PlanRevised? <==> b.PlanRevised?)
    && (a.PlanRejected? <==> b.PlanRejected?) && (a.PlanAdopted? <==> b.PlanAdopted?)
    && (a.WorkflowStarted? <==> b.WorkflowStarted?) && (a.WorkflowPlanBound? <==> b.WorkflowPlanBound?)
    && (a.WorkflowStopped? <==> b.WorkflowStopped?)
  }

  lemma BodyTypeTells(a: E.Body, b: E.Body)
    ensures BodyTypeOf(a) == BodyTypeOf(b) <==> SameBody(a, b)
  {
  }

  /** The type of an event tells what it carries: two payloads that parse have one type exactly if they are of one kind. */
  lemma TypeTells(p: Payload, q: Payload)
    requires Parses(p) && Parses(q)
    ensures TypeOf(p) == TypeOf(q) <==> SameKind(p, q) && (p.TaskExecution? && q.TaskExecution? ==> SameBody(p.event.body, q.event.body))
  {
    hide SameBody, BodyTypeOf, FieldsPresent, E.ParseCheck;
    if p.TaskExecution? && q.TaskExecution? {
      BodyTypeTells(p.event.body, q.event.body);
    }
  }

  // ----- What a reader of a changed chain is told -----

  lemma {:induction false} FirstErrorIs(events: seq<Sealed>, k: nat, i: nat)
    requires k <= i < |events| && (forall j :: k <= j < i ==> ErrorAt(events, j).None?) && ErrorAt(events, i).Some?
    ensures FirstError(events, k) == ErrorAt(events, i)
    decreases i - k
  {
    hide ErrorAt;
    if k < i {
      FirstErrorIs(events, k + 1, i);
    }
  }

  /** The fault of a chain with a good header is that of the first event that does not fit. */
  lemma FaultIs(events: seq<Sealed>, i: nat)
    requires i < |events| && HeaderError(events[0].envelope).None?
    requires (forall j :: 0 <= j < i ==> ErrorAt(events, j).None?) && ErrorAt(events, i).Some?
    ensures ChainFault(events) == ErrorAt(events, i)
  {
    FirstErrorIs(events, 0, i);
    hide ErrorAt, FirstError;
  }

  /** The event at a place is replaced by another one with its header. */
  lemma Replaced(events: seq<Sealed>, i: nat, item: Sealed)
    requires ValidChain(events) && i < |events|
    requires var (e, f) := (events[i].envelope, item.envelope);
             && f.schemaVersion == e.schemaVersion && f.streamKind == e.streamKind && f.workspaceId == e.workspaceId && f.streamId == e.streamId
             && f.sequence == e.sequence && f.priorEnvelopeHash == e.priorEnvelopeHash
    requires ItemError(events[0].envelope, item, i, PriorHash(events, i)).Some?
    ensures ChainFault(events[i := item]) == ItemError(events[0].envelope, item, i, PriorHash(events, i))
  {
    var changed := events[i := item];
    ValidChainMeans(events);
    var first, other := events[0].envelope, changed[0].envelope;
    assert HeaderError(other) == HeaderError(first);
    forall j | 0 <= j < |events| ensures ErrorAt(changed, j) == ItemError(first, changed[j], j, PriorHash(changed, j)) {
      SameFirst(first, other, changed[j], j, PriorHash(changed, j));
    }
    hide ItemError, HeaderError;
    forall j | 0 <= j < i ensures ErrorAt(changed, j).None? {
      assert changed[j] == events[j] && PriorHash(changed, j) == PriorHash(events, j);
      assert ErrorAt(events, j).None?;
    }
    assert PriorHash(changed, i) == PriorHash(events, i);
    FaultIs(changed, i);
  }

  lemma SameFirst(first: Envelope, other: Envelope, item: Sealed, i: nat, prior: Option<Hash>)
    requires other.streamKind == first.streamKind && other.workspaceId == first.workspaceId && other.streamId == first.streamId
    ensures ItemError(other, item, i, prior) == ItemError(first, item, i, prior)
  {
    hide NamedFields, Canonized, Parses, TypeOf;
  }

  /** Another payload under the hashes that are there, but for the sign of zeros, is found as a wrong payload hash. */
  lemma PayloadChanged(events: seq<Sealed>, i: nat, payload: Payload)
    requires ValidChain(events) && i < |events| && Canonized(payload) != Canonized(events[i].envelope.payload)
    ensures ChainFault(events[i := Sealed(events[i].envelope.(payload := payload), events[i].envelopeHash)]) == Some(PayloadHashInvalid)
  {
    ValidChainMeans(events);
    var item := Sealed(events[i].envelope.(payload := payload), events[i].envelopeHash);
    assert ErrorAt(events, i).None?;
    assert NamedFields(item.envelope) <==> NamedFields(events[i].envelope);
    hide Canonized, Parses, TypeOf, NamedFields, ValidChain, ChainFault;
    Replaced(events, i, item);
  }

  /** Another author or cause, or another payload under its own hash, is found as a wrong envelope hash. */
  lemma EnvelopeChanged(events: seq<Sealed>, i: nat, e: Envelope)
    requires ValidChain(events) && i < |events|
    requires var f := events[i].envelope;
             && e.schemaVersion == f.schemaVersion && e.streamKind == f.streamKind && e.workspaceId == f.workspaceId && e.streamId == f.streamId
             && e.sequence == f.sequence && e.priorEnvelopeHash == f.priorEnvelopeHash
    requires Signed(e) && e.payloadHash == PayloadHash(Canonized(e.payload))
    requires e.(payload := Canonized(e.payload)) != events[i].envelope.(payload := Canonized(events[i].envelope.payload))
    ensures ChainFault(events[i := Sealed(e, events[i].envelopeHash)]) == Some(EnvelopeHashInvalid)
  {
    ValidChainMeans(events);
    var item := Sealed(e, events[i].envelopeHash);
    assert ErrorAt(events, i).None?;
    hide Canonized, Parses, TypeOf, ValidChain, ChainFault;
    assert NamedFields(e);
    hide NamedFields;
    Replaced(events, i, item);
  }

  /** An event that is left out, unless it is the last, is found as a break of the chain. */
  lemma EventDropped(events: seq<Sealed>, i: nat)
    requires ValidChain(events) && i + 1 < |events|
    ensures ChainFault(events[..i] + events[i + 1..]) == Some(ChainInvalid)
  {
    var rest := events[..i] + events[i + 1..];
    ValidChainMeans(events);
    assert rest[i] == events[i + 1] && ErrorAt(events, i + 1).None? && ErrorAt(events, 0).None?;
    var first, other := events[0].envelope, rest[0].envelope;
    assert other.streamKind == first.streamKind && other.workspaceId == first.workspaceId && other.streamId == first.streamId by {
      assert i == 0 || rest[0] == events[0];
    }
    assert HeaderError(other).None?;
    SameFirst(first, other, rest[i], i, PriorHash(rest, i));
    assert ErrorAt(rest, i) == Some(ChainInvalid);
    hide ItemError, HeaderError;
    forall j | 0 <= j < i ensures ErrorAt(rest, j).None? {
      assert rest[j] == events[j] && rest[0] == events[0] && PriorHash(rest, j) == PriorHash(events, j);
      assert ErrorAt(events, j).None?;
    }
    FaultIs(rest, i);
  }

  lemma BeginningsAreValid(events: seq<Sealed>, other: seq<Sealed>)
    requires ValidChain(events) && other != [] && other <= events
    ensures ValidChain(other)
  {
    ValidChainMeans(events);
    ValidChainMeans(other);
    hide ItemError, ChainFault, GoodGenesis;
    assert other[0] == events[0];
    forall k | 0 <= k < |other| ensures ErrorAt(other, k).None? {
      assert other[k] == events[k] && PriorHash(other, k) == PriorHash(events, k);
      assert ErrorAt(events, k).None?;
    }
  }

  lemma InPlace(events: seq<Sealed>, other: seq<Sealed>, k: nat)
    requires ValidChain(events) && ValidChain(other) && k < |other| && other[k] in events
    ensures k < |events| && other[k] == events[k]
  {
    ValidChainMeans(events);
    ValidChainMeans(other);
    var m :| 0 <= m < |events| && events[m] == other[k];
    assert ErrorAt(events, m).None? && ErrorAt(other, k).None?;
    hide ChainFault, GoodGenesis, Parses, TypeOf, NamedFields;
  }

  /** Of the events of a valid chain, only its beginnings make a valid chain, and every beginning does. */
  lemma OnlyBeginnings(events: seq<Sealed>, other: seq<Sealed>)
    requires ValidChain(events) && forall x :: x in other ==> x in events
    ensures ValidChain(other) <==> other != [] && other <= events
  {
    hide ItemError, HeaderError, FirstError;
    if ValidChain(other) {
      assert other != [];
      forall k | 0 <= k < |other| ensures k < |events| && other[k] == events[k] {
        InPlace(events, other, k);
      }
      InPlace(events, other, |other| - 1);
      assert other == events[..|other|];
    }
    if other != [] && other <= events {
      BeginningsAreValid(events, other);
    }
  }
}
