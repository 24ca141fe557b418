/** Which decisions on a run stream are final (packages/domain/src/receipt.ts). */
module RunProposals {
  import opened Wrappers
  import opened Events
  import opened Ledger
  import opened RunLedger
  import E = Execution

  /**
   * A decision on a submitted proposal is taken exactly when its state may move there, or when it
   * accepts once more a proposal that is accepted.  The error that speaks of duplicates is given
   * exactly for the other decisions on a proposal that has a provenance and is no longer open.
   */
  lemma DecisionTaken(o: Operational, id: string, digest: string, state: Decision, provenance: string, artifact: string)
    ensures var (r, known) := (DecideProposal(o, id, digest, state, provenance, artifact), id in o.proposals && o.proposals[id].proposalDigest == digest);
            && (r.Replayed? <==> known && (CanMove(o.proposals[id].status, state) || (o.proposals[id].status == Decided(Accepted) && state.Accepted?)))
            && (r == Refused(DuplicateProposalTransition) <==>
                  && known && o.proposals[id].provenanceDigest.Some? && !Open(o.proposals[id].status)
                  && !(o.proposals[id].status == Decided(Accepted) && state.Accepted?))
            && (r.Replayed? ==> r.value == o.(proposals := o.proposals[id := Proposal(Decided(state), digest, Some(provenance), Some(artifact))]))
  {
  }

  /** The event is about the proposal. */
  predicate Concerns(p: Payload, id: string) {
    (p.ProposalSubmitted? || p.AdmissionDecisionRecorded? || p.DeltaAccepted?) && p.proposalId == id
  }

  predicate IsFinal(proposals: map<string, Proposal>, id: string) {
    id in proposals && !Open(proposals[id].status)
  }

  /** An accepted proposal is accepted once more. */
  predicate AcceptsAgain(p: Payload, status: AdmissionState) {
    p.AdmissionDecisionRecorded? && p.state.Accepted? && status == Decided(Accepted)
  }

  lemma FinalStays(o: Operational, p: Payload, sequence: int, id: string)
    requires IsFinal(o.proposals, id) && Change(o, p, sequence).Replayed?
    ensures var next := Change(o, p, sequence).value;
            && IsFinal(next.proposals, id)
            && next.proposals[id].status == o.proposals[id].status && next.proposals[id].proposalDigest == o.proposals[id].proposalDigest
    ensures Concerns(p, id) ==> AcceptsAgain(p, o.proposals[id].status)
    ensures !Concerns(p, id) ==> Change(o, p, sequence).value.proposals[id] == o.proposals[id]
  {
    hide E.Step, Titles, Resolutions;
  }

  // ----- Whole streams -----

  lemma FinalAfter(s: Projections, item: Sealed, id: string)
    requires s.operational.Some? && IsFinal(s.operational.value.proposals, id) && ReplayOne(s, item).Replayed?
    ensures var next := ReplayOne(s, item).value.operational;
            && next.Some? && IsFinal(next.value.proposals, id)
            && next.value.proposals[id].status == s.operational.value.proposals[id].status
            && next.value.proposals[id].proposalDigest == s.operational.value.proposals[id].proposalDigest
    ensures Concerns(item.envelope.payload, id) ==> AcceptsAgain(item.envelope.payload, s.operational.value.proposals[id].status)
  {
    hide Change, NextCanonical, IsFinal, Concerns, AcceptsAgain;
    FinalStays(Advance(s.operational, item.envelope).value, item.envelope.payload, item.envelope.sequence, id);
  }

  /** What the first `i` events leave of a proposal. */
  ghost predicate FinalAt(events: seq<Sealed>, i: nat, id: string)
    requires i <= |events|
  {
    var r := Fold(events[..i]);
    r.Replayed? && r.value.operational.Some? && IsFinal(r.value.operational.value.proposals, id)
  }

  ghost function ProposalAt(events: seq<Sealed>, i: nat, id: string): Proposal
    requires i <= |events| && FinalAt(events, i, id)
  {
    Fold(events[..i]).value.operational.value.proposals[id]
  }

  /**
   * Once a proposal is accepted, rejected or conflicted on a run stream, it keeps its status and
   * digest, and every later event about it accepts it once more.
   */
  lemma {:induction false} FinalForGood(events: seq<Sealed>, i: nat, j: nat, id: string)
    requires Fold(events).Replayed? && i <= j <= |events| && FinalAt(events, i, id)
    ensures FinalAt(events, j, id)
    ensures ProposalAt(events, j, id).status == ProposalAt(events, i, id).status
    ensures ProposalAt(events, j, id).proposalDigest == ProposalAt(events, i, id).proposalDigest
    ensures forall k :: i <= k < j && Concerns(events[k].envelope.payload, id) ==>
              AcceptsAgain(events[k].envelope.payload, ProposalAt(events, i, id).status)
    decreases j
  {
    hide ReplayOne, Fold, IsFinal, Concerns, AcceptsAgain;
    if i < j {
      FinalForGood(events, i, j - 1, id);
      FoldNext(events, j - 1);
      if Fold(events[..j]).Refused? {
        FoldRefused(events, j);
      }
      FinalAfter(Fold(events[..j - 1]).value, events[j - 1], id);
    }
  }
}
