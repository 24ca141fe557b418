/** When the two ledgers take an event, and how decisions follow each other (packages/domain/src/receipt.ts). */
module LedgerLaws {
  import opened Wrappers
  import opened Events
  import opened Ledger
  import W = WorkspaceLedger

  /** A decision may follow another: a conflict only a submission, and nothing an acceptance, a rejection or a conflict. */
  predicate MayFollow(from: AdmissionState, to: Decision) {
    if to.Conflicted? then from == Submitted
    else if to.Accepted? || to.Rejected? then from == Submitted || from == Decided(Quarantined) || from == Decided(ApprovalRequired)
    else from == Submitted || from == Decided(Quarantined)
  }

  lemma CanMoveMeans(from: AdmissionState, to: Decision)
    ensures CanMove(from, to) <==> MayFollow(from, to)
  {
  }

  // ----- The workspace -----

  /** The decision is the first with its id in the workspace. */
  predicate NewDecision(s: W.WorkspaceState, decisionEventId: string) {
    forall p :: p in s.admissions ==> forall d :: d in s.admissions[p].history ==> d.decisionEventId != decisionEventId
  }

  /** The admission and the quota that an event names are the ones on record, if there are any, and the decision may follow. */
  predicate FitsRecords(s: W.WorkspaceState, p: Payload)
    requires p.WorkspaceAdmissionRecorded?
  {
    && (p.quotaId in s.quotas ==> s.quotas[p.quotaId].quotaDigest == p.quotaDigest)
    && (p.proposalDigest in s.admissions ==>
          var a := s.admissions[p.proposalDigest];
          a.quotaId == p.quotaId && a.quotaDigest == p.quotaDigest && MayFollow(Decided(a.latest.state), p.state))
  }

  lemma AdmissionGuardMeans(s: W.WorkspaceState, p: Payload)
    requires p.WorkspaceAdmissionRecorded?
    ensures W.AdmissionGuard(s, p) == Passed <==>
            (p.state.Accepted? <==> p.consumed) && NewDecision(s, p.decisionEventId) && FitsRecords(s, p)
  {
    CanMoveMeans(W.StateOf(s.admissions, p.proposalDigest), p.state);
    hide CanMove;
    DecidedBefore(s, p.decisionEventId);
    hide NewDecision, W.AlreadyDecided;
  }

  lemma DecidedBefore(s: W.WorkspaceState, id: string)
    ensures W.AlreadyDecided(s.admissions, id) <==> !NewDecision(s, id)
  {
    if !NewDecision(s, id) {
      var p, d :| p in s.admissions && d in s.admissions[p].history && d.decisionEventId == id;
      var i :| 0 <= i < |s.admissions[p].history| && s.admissions[p].history[i] == d;
    }
  }

  /**
   * A workspace takes an admission exactly when it comes next, charges its quota if and only if it
   * accepts, and fits what is on record; then the decision is the last of its admission, is observed by
   * the quota, and is charged to it if it accepts.
   */
  lemma AdmissionEffect(s: W.WorkspaceState, p: Payload, sequence: int)
    requires p.WorkspaceAdmissionRecorded?
    ensures W.ReduceWorkspaceState(Some(s), p, sequence).Replayed? <==>
            && p.workspaceId == s.workspaceId && sequence == s.lastEventSequence + 1
            && (p.state.Accepted? <==> p.consumed) && NewDecision(s, p.decisionEventId) && FitsRecords(s, p)
    ensures W.ReduceWorkspaceState(Some(s), p, sequence).Replayed? ==>
              var d := W.DecisionRecord(p.decisionEventId, p.state, p.consumed);
              var before := if p.proposalDigest in s.admissions then s.admissions[p.proposalDigest].history else [];
              var q := if p.quotaId in s.quotas then s.quotas[p.quotaId] else W.Quota(p.quotaDigest, [], []);
              W.ReduceWorkspaceState(Some(s), p, sequence).value
              == s.(admissions := s.admissions[p.proposalDigest := W.Admission(p.proposalDigest, d, p.quotaId, p.quotaDigest, before + [d])],
                    quotas := s.quotas[p.quotaId := W.Quota(p.quotaDigest, q.consumed + (if p.consumed then [p.decisionEventId] else []),
                                                            q.observed + [p.decisionEventId])],
                    contextEpoch := s.contextEpoch + 1, lastEventSequence := sequence)
  {
    AdmissionGuardMeans(s, p);
    hide W.AdmissionGuard, NewDecision, FitsRecords;
  }

  lemma PolicyEffect(s: W.WorkspaceState, p: Payload, sequence: int)
    requires p.PolicyReferenceChanged?
    ensures W.ReduceWorkspaceState(Some(s), p, sequence).Replayed? <==> p.workspaceId == s.workspaceId && sequence == s.lastEventSequence + 1
    ensures W.ReduceWorkspaceState(Some(s), p, sequence).Replayed? ==>
              W.ReduceWorkspaceState(Some(s), p, sequence).value
              == s.(activePolicyDigest := p.activePolicyDigest, contextEpoch := s.contextEpoch + 1, lastEventSequence := sequence)
  {
  }

  /** Each decision of a history may follow the one before it. */
  predicate MovesOn(history: seq<W.DecisionRecord>) {
    forall k :: 0 < k < |history| ==> MayFollow(Decided(history[k - 1].state), history[k].state)
  }

  predicate HistoriesMoveOn(admissions: map<string, W.Admission>) {
    forall p :: p in admissions ==> AdmissionMovesOn(admissions[p])
  }

  predicate AdmissionMovesOn(a: W.Admission) {
    a.history != [] && a.history[|a.history| - 1] == a.latest && MovesOn(a.history)
  }

  lemma OneMovesOn(s: Option<W.WorkspaceState>, item: Sealed)
    requires W.ReplayOne(s, item).Replayed? && (s.Some? ==> HistoriesMoveOn(s.value.admissions))
    ensures HistoriesMoveOn(W.ReplayOne(s, item).value.admissions)
  {
    var p := item.envelope.payload;
    if p.WorkspaceAdmissionRecorded? {
      AdmissionEffect(s.value, p, item.envelope.sequence);
      hide W.ReduceWorkspaceState, NewDecision, MayFollow;
      if p.proposalDigest in s.value.admissions {
        assert AdmissionMovesOn(s.value.admissions[p.proposalDigest]);
      }
      assert AdmissionMovesOn(W.ReplayOne(s, item).value.admissions[p.proposalDigest]);
    } else if p.PolicyReferenceChanged? {
      PolicyEffect(s.value, p, item.envelope.sequence);
    }
  }

  lemma {:induction false} FoldMovesOn(events: seq<Sealed>)
    requires W.Fold(events).Replayed?
    ensures W.Fold(events).value.Some? ==> HistoriesMoveOn(W.Fold(events).value.value.admissions)
    decreases |events|
  {
    hide W.ReplayOne, HistoriesMoveOn;
    if events != [] {
      var front, item := events[..|events| - 1], events[|events| - 1];
      FoldMovesOn(front);
      OneMovesOn(W.Fold(front).value, item);
    }
  }

  /**
   * In every replayed workspace each decision on a proposal may follow the one before it: after an
   * acceptance, a rejection or a conflict there is no other, and no conflict comes after a first decision.
   */
  lemma DecisionsMoveOn(events: seq<Sealed>)
    requires W.Replay(events).Replayed?
    ensures HistoriesMoveOn(W.Replay(events).value.admissions)
  {
    hide W.Fold, ChainFault, HistoriesMoveOn;
    FoldMovesOn(events);
  }
}
