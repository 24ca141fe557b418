/** What a replayed workspace says of its policy and its founder: what the events say (packages/domain/src/receipt.ts). */
module WorkspaceHistory {
  import opened Wrappers
  import opened Events
  import opened WorkspaceLedger

  /** The policy that the last event about it refers to. */
  function PolicySaid(events: seq<Sealed>): Option<string> {
    if events == [] then None
    else
      match events[|events| - 1].envelope.payload
      case WorkspaceCreated(_, _, _, _, policy) => Some(policy)
      case PolicyReferenceChanged(_, policy) => Some(policy)
      case _ => PolicySaid(events[..|events| - 1])
  }

  /** The workspace is the one that its genesis created, under the policy referred to last. */
  predicate AsFounded(s: WorkspaceState, events: seq<Sealed>)
    requires events != []
  {
    var p := events[0].envelope.payload;
    && p == WorkspaceCreated(s.workspaceId, s.authorityPrincipalId, s.initialGrantDigest, s.authorityConsumptionMarker,
                             if p.WorkspaceCreated? then p.activePolicyDigest else "")
    && PolicySaid(events) == Some(s.activePolicyDigest)
  }

  /** After the genesis a stream only changes the policy or records admissions, for this workspace. */
  predicate OnlyPoliciesAndAdmissions(s: WorkspaceState, events: seq<Sealed>) {
    forall i :: 0 < i < |events| ==>
                  var p := events[i].envelope.payload;
                  (p.PolicyReferenceChanged? || p.WorkspaceAdmissionRecorded?) && p.workspaceId == s.workspaceId
  }

  lemma OneMoreSaid(s: WorkspaceState, events: seq<Sealed>, item: Sealed)
    requires events != [] && AsFounded(s, events) && OnlyPoliciesAndAdmissions(s, events)
    requires ReplayOne(Some(s), item).Replayed?
    ensures AsFounded(ReplayOne(Some(s), item).value, events + [item])
    ensures OnlyPoliciesAndAdmissions(ReplayOne(Some(s), item).value, events + [item])
  {
    hide AdmissionGuard, Admit, Charge;
    assert (events + [item])[..|events|] == events;
    assert ReplayOne(Some(s), item).value.workspaceId == s.workspaceId;
  }

  lemma FirstSaid(item: Sealed)
    requires ReplayOne(None, item).Replayed?
    ensures AsFounded(ReplayOne(None, item).value, [item]) && OnlyPoliciesAndAdmissions(ReplayOne(None, item).value, [item])
  {
  }

  lemma {:induction false} FoldSaid(events: seq<Sealed>)
    requires events != [] && Fold(events).Replayed?
    ensures Fold(events).value.Some?
    ensures AsFounded(Fold(events).value.value, events) && OnlyPoliciesAndAdmissions(Fold(events).value.value, events)
    decreases |events|
  {
    hide ReplayOne, AsFounded, OnlyPoliciesAndAdmissions;
    var front, item := events[..|events| - 1], events[|events| - 1];
    assert front + [item] == events;
    if front == [] {
      assert events == [item];
      FirstSaid(item);
    } else {
      FoldSaid(front);
      OneMoreSaid(Fold(front).value.value, front, item);
    }
  }

  /**
   * Every replayed workspace is the one its genesis created, and its active policy is that of the last
   * event that refers to one.
   */
  lemma PolicyIsTheLast(events: seq<Sealed>)
    requires Replay(events).Replayed?
    ensures events != [] && AsFounded(Replay(events).value, events) && OnlyPoliciesAndAdmissions(Replay(events).value, events)
  {
    hide Fold, ChainFault, AsFounded, OnlyPoliciesAndAdmissions;
    FoldSaid(events);
  }
}
