/** The workspace projection: policy, admissions and quotas (packages/domain/src/receipt.ts). */
module WorkspaceLedger {
  import opened Wrappers
  import opened Events
  import opened Ledger

  datatype DecisionRecord = DecisionRecord(decisionEventId: string, state: Decision, consumed: bool)

  datatype Admission = Admission(proposalDigest: string, latest: DecisionRecord, quotaId: string, quotaDigest: string,
                                 history: seq<DecisionRecord>)

  datatype Quota = Quota(quotaDigest: string, consumed: seq<string>, observed: seq<string>)

  datatype WorkspaceState = WorkspaceState(
    workspaceId: string,
    authorityPrincipalId: string,
    initialGrantDigest: string,
    authorityConsumptionMarker: string,
    activePolicyDigest: string,
    admissions: map<string, Admission>,
    quotas: map<string, Quota>,
    contextEpoch: int,
    lastEventSequence: int)

  // ----- One event -----

  predicate AlreadyDecided(admissions: map<string, Admission>, decisionEventId: string) {
    exists p, i :: p in admissions && 0 <= i < |admissions[p].history| && admissions[p].history[i].decisionEventId == decisionEventId
  }

  function StateOf(admissions: map<string, Admission>, proposalDigest: string): AdmissionState {
    if proposalDigest in admissions then Decided(admissions[proposalDigest].latest.state) else Submitted
  }

  function RecordOf(p: Payload): DecisionRecord
    requires p.WorkspaceAdmissionRecorded?
  {
    DecisionRecord(p.decisionEventId, p.state, p.consumed)
  }

  function Admit(admissions: map<string, Admission>, p: Payload): Admission
    requires p.WorkspaceAdmissionRecorded?
  {
    var history := if p.proposalDigest in admissions then admissions[p.proposalDigest].history else [];
    Admission(p.proposalDigest, RecordOf(p), p.quotaId, p.quotaDigest, history + [RecordOf(p)])
  }

  function Charge(quotas: map<string, Quota>, p: Payload): Quota
    requires p.WorkspaceAdmissionRecorded?
  {
    var quota := if p.quotaId in quotas then quotas[p.quotaId] else Quota(p.quotaDigest, [], []);
    Quota(p.quotaDigest, quota.consumed + (if p.consumed then [p.decisionEventId] else []), quota.observed + [p.decisionEventId])
  }

  /** `reduceWorkspaceState`. */
  function ReduceWorkspaceState(state: Option<WorkspaceState>, p: Payload, sequence: int): Replayed<WorkspaceState> {
    if p.WorkspaceCreated? then
      :- Demand(state.None? && sequence == 1, LedgerError.InvalidGenesis);
      Replayed(WorkspaceState(p.workspaceId, p.authorityPrincipalId, p.initialGrantDigest, p.authorityConsumptionMarker,
                              p.activePolicyDigest, map[], map[], 0, 1))
    else if p.PolicyReferenceChanged? || p.WorkspaceAdmissionRecorded? then
      :- Demand(state.Some?, LedgerError.InvalidGenesis);
      var s := state.value;
      :- Demand(p.workspaceId == s.workspaceId, AggregateIdentityMismatch);
      :- Demand(sequence == s.lastEventSequence + 1, EventSequenceInvalid);
      var moved := s.(contextEpoch := s.contextEpoch + 1, lastEventSequence := sequence);
      if p.PolicyReferenceChanged? then Replayed(moved.(activePolicyDigest := p.activePolicyDigest))
      else
        :- AdmissionGuard(s, p);
        Replayed(moved.(admissions := s.admissions[p.proposalDigest := Admit(s.admissions, p)],
                        quotas := s.quotas[p.quotaId := Charge(s.quotas, p)]))
    else Refused(LedgerError.UnsupportedEventType)
  }

  function AdmissionGuard(s: WorkspaceState, p: Payload): Guard
    requires p.WorkspaceAdmissionRecorded?
  {
    if p.state.Accepted? != p.consumed then Broken(AdmissionQuotaInconsistent)
    else if AlreadyDecided(s.admissions, p.decisionEventId) then Broken(DuplicateAdmissionTransition)
    else if p.proposalDigest in s.admissions
         && (s.admissions[p.proposalDigest].quotaId != p.quotaId || s.admissions[p.proposalDigest].quotaDigest != p.quotaDigest)
      then Broken(AdmissionIdentityConflict)
    else if !CanMove(StateOf(s.admissions, p.proposalDigest), p.state) then Broken(IllegalAdmissionTransition)
    else Demand(p.quotaId in s.quotas ==> s.quotas[p.quotaId].quotaDigest == p.quotaDigest, QuotaIdentityConflict)
  }

  // ----- Whole replays -----

  function ReplayOne(state: Option<WorkspaceState>, item: Sealed): Replayed<WorkspaceState> {
    var e := item.envelope;
    :- Demand(e.streamKind.WorkspaceStream? && e.streamId == e.workspaceId, LedgerError.EventIdentityInvalid);
    :- Demand(WorkspaceOf(e.payload) == e.workspaceId, LedgerError.MalformedEvent);
    ReduceWorkspaceState(state, e.payload, e.sequence)
  }

  /** The state after all events, or the first refusal. */
  function Fold(events: seq<Sealed>): Replayed<Option<WorkspaceState>> {
    if events == [] then Replayed(None)
    else
      var before :- Fold(events[..|events| - 1]);
      var after :- ReplayOne(before, events[|events| - 1]);
      Replayed(Some(after))
  }

  ghost function Replay(events: seq<Sealed>): Replayed<WorkspaceState> {
    if ChainFault(events).Some? then Refused(Chain(ChainFault(events).value))
    else if events == [] || !events[0].envelope.streamKind.WorkspaceStream? then Refused(LedgerError.InvalidGenesis)
    else
      var state :- Fold(events);
      if state.None? then Refused(LedgerError.InvalidGenesis) else Replayed(state.value)
  }

  lemma {:induction false} FoldRefused(events: seq<Sealed>, i: nat)
    requires i <= |events| && Fold(events[..i]).Refused?
    ensures Fold(events).Refused? && Fold(events).error == Fold(events[..i]).error
    decreases |events|
  {
    hide ReplayOne;
    if i == |events| {
      assert events[..i] == events;
    } else {
      var front := events[..|events| - 1];
      assert front[..i] == events[..i];
      FoldRefused(front, i);
    }
  }

  lemma FoldNext(events: seq<Sealed>, i: nat)
    requires i < |events| && Fold(events[..i]).Replayed?
    ensures var next := ReplayOne(Fold(events[..i]).value, events[i]);
            Fold(events[..i + 1]) == if next.Refused? then Refused(next.error) else Replayed(Some(next.value))
  {
    hide ReplayOne;
    assert events[..i + 1][..i] == events[..i];
  }

  /** `deterministicWorkspaceReplay`. */
  method DeterministicWorkspaceReplay(events: seq<Sealed>) returns (r: Replayed<WorkspaceState>)
    ensures r == Replay(events)
  {
    hide ReplayOne, ChainFault;
    var fault := VerifyEventChain(events);
    if fault.Some? {
      return Refused(Chain(fault.value));
    }
    if events == [] || !events[0].envelope.streamKind.WorkspaceStream? {
      return Refused(LedgerError.InvalidGenesis);
    }
    var state: Option<WorkspaceState> := None;
    for i := 0 to |events|
      invariant Fold(events[..i]) == Replayed(state)
    {
      FoldNext(events, i);
      var next := ReplayOne(state, events[i]);
      if next.Refused? {
        FoldRefused(events, i + 1);
        return Refused(next.error);
      }
      state := Some(next.value);
    }
    assert events[..|events|] == events;
    r := if state.None? then Refused(LedgerError.InvalidGenesis) else Replayed(state.value);
  }

  // ----- The log of admission decisions -----

  /** The admission decisions of a chain, in order. */
  function Log(events: seq<Sealed>): (r: seq<Payload>)
    ensures forall d :: d in r ==> d.WorkspaceAdmissionRecorded?
  {
    if events == [] then []
    else
      var p := events[|events| - 1].envelope.payload;
      Log(events[..|events| - 1]) + (if p.WorkspaceAdmissionRecorded? then [p] else [])
  }

  predicate IsLog(log: seq<Payload>) {
    forall d :: d in log ==> d.WorkspaceAdmissionRecorded?
  }

  /** The decisions on one proposal. */
  function HistoryOf(log: seq<Payload>, proposalDigest: string): seq<DecisionRecord>
    requires IsLog(log)
  {
    if log == [] then []
    else
      var d := log[|log| - 1];
      HistoryOf(log[..|log| - 1], proposalDigest) + (if d.proposalDigest == proposalDigest then [RecordOf(d)] else [])
  }

  /** The ids of the decisions charged to one quota. */
  function ObservedBy(log: seq<Payload>, quotaId: string): seq<string>
    requires IsLog(log)
  {
    if log == [] then []
    else
      var d := log[|log| - 1];
      ObservedBy(log[..|log| - 1], quotaId) + (if d.quotaId == quotaId then [d.decisionEventId] else [])
  }

  /** The ids of the accepting decisions charged to one quota. */
  function ConsumedBy(log: seq<Payload>, quotaId: string): seq<string>
    requires IsLog(log)
  {
    if log == [] then []
    else
      var d := log[|log| - 1];
      ConsumedBy(log[..|log| - 1], quotaId) + (if d.quotaId == quotaId && d.state.Accepted? then [d.decisionEventId] else [])
  }

  /** The proposals of a quota that are now accepted. */
  function AcceptedUnder(admissions: map<string, Admission>, quotaId: string): set<string> {
    set p | p in admissions && admissions[p].quotaId == quotaId && admissions[p].latest.state.Accepted?
  }

  // ----- What every replay keeps -----

  predicate DecisionAdmitted(admissions: map<string, Admission>, d: Payload)
    requires d.WorkspaceAdmissionRecorded?
  {
    && d.proposalDigest in admissions
    && admissions[d.proposalDigest].quotaId == d.quotaId && admissions[d.proposalDigest].quotaDigest == d.quotaDigest
  }

  predicate AdmissionMatches(a: Admission, log: seq<Payload>, p: string)
    requires IsLog(log)
  {
    && a.proposalDigest == p && a.history == HistoryOf(log, p)
    && a.history != [] && a.latest == a.history[|a.history| - 1]
  }

  predicate AdmissionsMatch(admissions: map<string, Admission>, log: seq<Payload>)
    requires IsLog(log)
  {
    && (forall d :: d in log ==> DecisionAdmitted(admissions, d))
    && (forall p :: p in admissions ==> AdmissionMatches(admissions[p], log, p))
  }

  predicate DecisionCharged(quotas: map<string, Quota>, d: Payload)
    requires d.WorkspaceAdmissionRecorded?
  {
    d.quotaId in quotas && quotas[d.quotaId].quotaDigest == d.quotaDigest
  }

  predicate QuotaMatches(quota: Quota, log: seq<Payload>, q: string)
    requires IsLog(log)
  {
    quota.observed == ObservedBy(log, q) && quota.consumed == ConsumedBy(log, q)
  }

  predicate QuotasMatch(quotas: map<string, Quota>, log: seq<Payload>)
    requires IsLog(log)
  {
    && (forall d :: d in log ==> DecisionCharged(quotas, d))
    && (forall q :: q in quotas ==> QuotaMatches(quotas[q], log, q))
  }

  /** No decision id occurs twice. */
  predicate DecisionsDistinct(log: seq<Payload>)
    requires IsLog(log)
  {
    forall i, j :: 0 <= i < j < |log| ==> log[i].decisionEventId != log[j].decisionEventId
  }

  /** After a proposal is accepted, no more is decided on it: it consumes at most once. */
  predicate AcceptedIsFinal(log: seq<Payload>)
    requires IsLog(log)
  {
    forall i, j :: 0 <= i < j < |log| && log[i].proposalDigest == log[j].proposalDigest ==> !log[i].state.Accepted?
  }

  predicate QuotasCount(admissions: map<string, Admission>, quotas: map<string, Quota>) {
    forall q :: q in quotas ==> |quotas[q].consumed| == |AcceptedUnder(admissions, q)|
  }

  predicate LedgerMatches(admissions: map<string, Admission>, quotas: map<string, Quota>, log: seq<Payload>)
    requires IsLog(log)
  {
    && AdmissionsMatch(admissions, log)
    && QuotasMatch(quotas, log)
    && DecisionsDistinct(log)
    && AcceptedIsFinal(log)
    && QuotasCount(admissions, quotas)
  }

  predicate WorkspaceInv(s: WorkspaceState, events: seq<Sealed>) {
    && s.lastEventSequence == |events| && s.contextEpoch == |events| - 1
    && LedgerMatches(s.admissions, s.quotas, Log(events))
  }

  lemma {:induction false} HistoryMembers(log: seq<Payload>, p: string)
    requires IsLog(log)
    ensures forall d :: d in log && d.proposalDigest == p ==> RecordOf(d) in HistoryOf(log, p)
    ensures forall h :: h in HistoryOf(log, p) ==> exists d :: d in log && d.proposalDigest == p && RecordOf(d) == h
    ensures HistoryOf(log, p) != [] ==> exists k :: LastOn(log, p, k)
  {
    if log != [] {
      var front, d := log[..|log| - 1], log[|log| - 1];
      HistoryMembers(front, p);
      assert forall x :: x in log <==> x in front || x == d;
      if d.proposalDigest == p {
        assert LastOn(log, p, |log| - 1);
      } else if HistoryOf(log, p) != [] {
        var k :| LastOn(front, p, k);
        assert LastOn(log, p, k);
      }
    }
  }

  /** The last decision on a proposal is at place `k`. */
  predicate LastOn(log: seq<Payload>, p: string, k: int)
    requires IsLog(log)
  {
    && 0 <= k < |log| && log[k].proposalDigest == p
    && (forall i :: k < i < |log| ==> log[i].proposalDigest != p)
    && HistoryOf(log, p) != [] && HistoryOf(log, p)[|HistoryOf(log, p)| - 1] == RecordOf(log[k])
  }

  lemma NotYetDecided(s: WorkspaceState, log: seq<Payload>, id: string)
    requires IsLog(log) && AdmissionsMatch(s.admissions, log) && !AlreadyDecided(s.admissions, id)
    ensures forall d :: d in log ==> d.decisionEventId != id
  {
    forall d | d in log ensures d.decisionEventId != id {
      HistoryMembers(log, d.proposalDigest);
      assert DecisionAdmitted(s.admissions, d) && AdmissionMatches(s.admissions[d.proposalDigest], log, d.proposalDigest);
      var h := s.admissions[d.proposalDigest].history;
      var i :| 0 <= i < |h| && h[i] == RecordOf(d);
    }
  }

  /** What a decision that passes the guard is known to be. */
  lemma Admissible(s: WorkspaceState, d: Payload)
    requires d.WorkspaceAdmissionRecorded? && AdmissionGuard(s, d).Passed?
    ensures d.state.Accepted? <==> d.consumed
    ensures !AlreadyDecided(s.admissions, d.decisionEventId)
    ensures d.proposalDigest in s.admissions ==>
              && s.admissions[d.proposalDigest].quotaId == d.quotaId && s.admissions[d.proposalDigest].quotaDigest == d.quotaDigest
              && !s.admissions[d.proposalDigest].latest.state.Accepted?
    ensures d.quotaId in s.quotas ==> s.quotas[d.quotaId].quotaDigest == d.quotaDigest
  {
    hide AlreadyDecided;
  }

  lemma OneMore(log: seq<Payload>, d: Payload, name: string)
    requires IsLog(log) && d.WorkspaceAdmissionRecorded?
    ensures HistoryOf(log + [d], name) == HistoryOf(log, name) + (if d.proposalDigest == name then [RecordOf(d)] else [])
    ensures ObservedBy(log + [d], name) == ObservedBy(log, name) + (if d.quotaId == name then [d.decisionEventId] else [])
    ensures ConsumedBy(log + [d], name) == ConsumedBy(log, name) + (if d.quotaId == name && d.state.Accepted? then [d.decisionEventId] else [])
  {
    assert (log + [d])[..|log|] == log;
  }

  lemma AdmissionsExtended(s: WorkspaceState, log: seq<Payload>, d: Payload)
    requires IsLog(log) && d.WorkspaceAdmissionRecorded? && AdmissionsMatch(s.admissions, log) && AdmissionGuard(s, d).Passed?
    ensures AdmissionsMatch(s.admissions[d.proposalDigest := Admit(s.admissions, d)], log + [d])
  {
    Admissible(s, d);
    hide AdmissionGuard, AlreadyDecided, HistoryOf;
    var admissions := s.admissions[d.proposalDigest := Admit(s.admissions, d)];
    forall p | p in admissions ensures AdmissionMatches(admissions[p], log + [d], p) {
      OneMore(log, d, p);
      if p !in s.admissions {
        NoHistory(log, p);
      } else {
        assert AdmissionMatches(s.admissions[p], log, p);
      }
    }
    hide AdmissionMatches;
    forall x | x in log + [d] ensures DecisionAdmitted(admissions, x) {
      assert x in log ==> DecisionAdmitted(s.admissions, x);
    }
  }

  lemma {:induction false} NoHistory(log: seq<Payload>, p: string)
    requires IsLog(log) && forall d :: d in log ==> d.proposalDigest != p
    ensures HistoryOf(log, p) == []
  {
    if log != [] {
      assert log[|log| - 1] in log;
      assert forall x :: x in log[..|log| - 1] ==> x in log;
      NoHistory(log[..|log| - 1], p);
    }
  }

  lemma {:induction false} NoCharges(log: seq<Payload>, q: string)
    requires IsLog(log) && forall d :: d in log ==> d.quotaId != q
    ensures ObservedBy(log, q) == [] && ConsumedBy(log, q) == []
  {
    if log != [] {
      assert log[|log| - 1] in log;
      assert forall x :: x in log[..|log| - 1] ==> x in log;
      NoCharges(log[..|log| - 1], q);
    }
  }

  lemma QuotasExtended(s: WorkspaceState, log: seq<Payload>, d: Payload)
    requires IsLog(log) && d.WorkspaceAdmissionRecorded? && QuotasMatch(s.quotas, log) && AdmissionGuard(s, d).Passed?
    ensures QuotasMatch(s.quotas[d.quotaId := Charge(s.quotas, d)], log + [d])
  {
    Admissible(s, d);
    hide AdmissionGuard, AlreadyDecided, ObservedBy, ConsumedBy;
    var quotas := s.quotas[d.quotaId := Charge(s.quotas, d)];
    forall q | q in quotas ensures QuotaMatches(quotas[q], log + [d], q) {
      OneMore(log, d, q);
      if q !in s.quotas {
        NoCharges(log, q);
      } else {
        assert QuotaMatches(s.quotas[q], log, q);
      }
    }
    hide QuotaMatches;
    forall x | x in log + [d] ensures DecisionCharged(quotas, x) {
      assert x in log ==> DecisionCharged(s.quotas, x);
    }
  }

  lemma LogExtended(s: WorkspaceState, log: seq<Payload>, d: Payload)
    requires IsLog(log) && d.WorkspaceAdmissionRecorded? && AdmissionsMatch(s.admissions, log) && AdmissionGuard(s, d).Passed?
    requires DecisionsDistinct(log) && AcceptedIsFinal(log)
    ensures DecisionsDistinct(log + [d]) && AcceptedIsFinal(log + [d])
  {
    Admissible(s, d);
    hide AdmissionGuard;
    NotYetDecided(s, log, d.decisionEventId);
    forall i | 0 <= i < |log| && log[i].proposalDigest == d.proposalDigest ensures !log[i].state.Accepted? {
      HistoryMembers(log, d.proposalDigest);
      assert log[i] in log;
      assert DecisionAdmitted(s.admissions, log[i]) && AdmissionMatches(s.admissions[d.proposalDigest], log, d.proposalDigest);
      assert RecordOf(log[i]) in HistoryOf(log, d.proposalDigest);
      var k :| LastOn(log, d.proposalDigest, k);
      assert s.admissions[d.proposalDigest].latest == RecordOf(log[k]);
      assert i < k ==> !log[i].state.Accepted?;
    }
  }

  /** A decision counts for its quota exactly when it accepts its proposal. */
  lemma QuotaCounts(s: WorkspaceState, d: Payload)
    requires d.WorkspaceAdmissionRecorded? && AdmissionGuard(s, d).Passed? && QuotasCount(s.admissions, s.quotas)
    requires forall p :: p in s.admissions ==> s.admissions[p].quotaId in s.quotas
    ensures QuotasCount(s.admissions[d.proposalDigest := Admit(s.admissions, d)], s.quotas[d.quotaId := Charge(s.quotas, d)])
  {
    Admissible(s, d);
    hide AdmissionGuard, Admit;
    var admissions, quotas := s.admissions[d.proposalDigest := Admit(s.admissions, d)], s.quotas[d.quotaId := Charge(s.quotas, d)];
    forall q | q in quotas ensures |quotas[q].consumed| == |AcceptedUnder(admissions, q)| {
      AcceptedAfter(s.admissions, d, q);
      assert q !in s.quotas ==> AcceptedUnder(s.admissions, q) == {};
      hide AcceptedUnder;
    }
  }

  lemma AcceptedAfter(admissions: map<string, Admission>, d: Payload, q: string)
    requires d.WorkspaceAdmissionRecorded?
    requires d.proposalDigest in admissions ==> !admissions[d.proposalDigest].latest.state.Accepted?
    ensures d.proposalDigest !in AcceptedUnder(admissions, q)
    ensures AcceptedUnder(admissions[d.proposalDigest := Admit(admissions, d)], q)
         == AcceptedUnder(admissions, q) + (if d.quotaId == q && d.state.Accepted? then {d.proposalDigest} else {})
  {
  }

  lemma AdmissionsCharged(s: WorkspaceState, log: seq<Payload>)
    requires IsLog(log) && AdmissionsMatch(s.admissions, log) && QuotasMatch(s.quotas, log)
    ensures forall p :: p in s.admissions ==> s.admissions[p].quotaId in s.quotas
  {
    forall p | p in s.admissions ensures s.admissions[p].quotaId in s.quotas {
      HistoryMembers(log, p);
      assert AdmissionMatches(s.admissions[p], log, p);
      var k :| LastOn(log, p, k);
      assert log[k] in log;
      assert DecisionAdmitted(s.admissions, log[k]) && DecisionCharged(s.quotas, log[k]);
    }
  }

  lemma AdmissionKeeps(s: WorkspaceState, log: seq<Payload>, d: Payload)
    requires IsLog(log) && d.WorkspaceAdmissionRecorded? && AdmissionGuard(s, d).Passed?
    requires LedgerMatches(s.admissions, s.quotas, log)
    ensures LedgerMatches(s.admissions[d.proposalDigest := Admit(s.admissions, d)], s.quotas[d.quotaId := Charge(s.quotas, d)], log + [d])
  {
    hide Admit, Charge, AdmissionGuard, AdmissionsMatch, QuotasMatch, QuotasCount, DecisionsDistinct, AcceptedIsFinal;
    AdmissionsExtended(s, log, d);
    QuotasExtended(s, log, d);
    LogExtended(s, log, d);
    AdmissionsCharged(s, log);
    QuotaCounts(s, d);
  }

  lemma LogNext(events: seq<Sealed>, item: Sealed)
    ensures item.envelope.payload.WorkspaceAdmissionRecorded? ==> Log(events + [item]) == Log(events) + [item.envelope.payload]
    ensures !item.envelope.payload.WorkspaceAdmissionRecorded? ==> Log(events + [item]) == Log(events)
  {
    assert (events + [item])[..|events|] == events;
  }

  lemma ReduceKeeps(s: WorkspaceState, events: seq<Sealed>, item: Sealed)
    requires WorkspaceInv(s, events) && item.envelope.sequence == |events| + 1
    requires ReplayOne(Some(s), item).Replayed?
    ensures WorkspaceInv(ReplayOne(Some(s), item).value, events + [item])
  {
    LogNext(events, item);
    hide LedgerMatches, Admit, Charge, AdmissionGuard, Log;
    if item.envelope.payload.WorkspaceAdmissionRecorded? {
      AdmissionKeeps(s, Log(events), item.envelope.payload);
    }
  }

  lemma {:induction false} FoldInv(events: seq<Sealed>)
    requires Fold(events).Replayed?
    requires forall i :: 0 <= i < |events| ==> events[i].envelope.sequence == i + 1
    ensures events == [] <==> Fold(events).value.None?
    ensures events != [] ==> WorkspaceInv(Fold(events).value.value, events)
    decreases |events|
  {
    hide WorkspaceInv, ReplayOne;
    if events != [] {
      var front, item := events[..|events| - 1], events[|events| - 1];
      FoldInv(front);
      assert front + [item] == events;
      if front == [] {
        FirstKeeps(item);
      } else {
        ReduceKeeps(Fold(front).value.value, front, item);
      }
    }
  }

  lemma FirstKeeps(item: Sealed)
    requires ReplayOne(None, item).Replayed?
    ensures WorkspaceInv(ReplayOne(None, item).value, [] + [item])
  {
    assert ([] + [item])[..0] == [];
    assert Log([]) == [];
  }

  /**
   * In every replayed workspace: decision ids are distinct; every decision is in the admission of its
   * proposal and charged to its quota; each admission's history is the list of the decisions on it,
   * and its latest decision is the last of them; each quota has observed exactly the decisions of its proposals and consumed
   * exactly the accepting ones; no proposal consumes twice, so the consumed count is the number of
   * proposals of the quota that are now accepted; and the context epoch follows the sequence.
   */
  lemma QuotaConservation(events: seq<Sealed>)
    requires Replay(events).Replayed?
    ensures var s, log := Replay(events).value, Log(events);
            && DecisionsDistinct(log)
            && (forall d :: d in log ==> DecisionAdmitted(s.admissions, d) && DecisionCharged(s.quotas, d))
            && (forall p :: p in s.admissions ==>
                  && s.admissions[p].history == HistoryOf(log, p) && s.admissions[p].history != []
                  && s.admissions[p].latest == s.admissions[p].history[|s.admissions[p].history| - 1])
            && (forall q :: q in s.quotas ==>
                  && s.quotas[q].observed == ObservedBy(log, q)
                  && s.quotas[q].consumed == ConsumedBy(log, q)
                  && |s.quotas[q].consumed| == |AcceptedUnder(s.admissions, q)|)
            && AcceptedIsFinal(log)
            && s.contextEpoch == s.lastEventSequence - 1 == |events| - 1
  {
    ReplayInv(events);
    hide ChainFault, HistoryOf, ObservedBy, ConsumedBy, Log, AcceptedUnder, DecisionsDistinct, AcceptedIsFinal, Replay;
    var s, log := Replay(events).value, Log(events);
    forall p | p in s.admissions
      ensures s.admissions[p].history == HistoryOf(log, p) && s.admissions[p].history != []
      ensures s.admissions[p].latest == s.admissions[p].history[|s.admissions[p].history| - 1]
    {
      assert AdmissionMatches(s.admissions[p], log, p);
    }
    forall q | q in s.quotas ensures s.quotas[q].observed == ObservedBy(log, q) && s.quotas[q].consumed == ConsumedBy(log, q) {
      assert QuotaMatches(s.quotas[q], log, q);
    }
  }

  lemma ReplayInv(events: seq<Sealed>)
    requires Replay(events).Replayed?
    ensures WorkspaceInv(Replay(events).value, events)
  {
    forall i | 0 <= i < |events| ensures events[i].envelope.sequence == i + 1 {
      ItemFacts(events, i);
    }
    hide WorkspaceInv, ChainFault;
    FoldInv(events);
  }

  // ----- Equal heads, equal workspaces -----

  lemma SameEventSameStep(state: Option<WorkspaceState>, a: Sealed, b: Sealed)
    requires SameEvent(a, b)
    ensures ReplayOne(state, a) == ReplayOne(state, b)
  {
    var e, f := CanonizedEnvelope(a.envelope), CanonizedEnvelope(b.envelope);
    assert e.sequence == f.sequence && e.streamKind == f.streamKind && e.streamId == f.streamId && e.workspaceId == f.workspaceId;
    var p, q := a.envelope.payload, b.envelope.payload;
    assert Canonized(p) == Canonized(q);
    hide AdmissionGuard, Admit, Charge;
    assert p == q || (p.RunCreated? && q.RunCreated?) || (p.DeltaAccepted? && q.DeltaAccepted?);
    assert WorkspaceOf(p) == WorkspaceOf(q);
  }

  lemma {:induction false} SameEventsSameFold(a: seq<Sealed>, b: seq<Sealed>)
    requires |a| == |b| && forall k :: 0 <= k < |a| ==> SameEvent(a[k], b[k])
    ensures Fold(a) == Fold(b)
  {
    hide SameEvent, ReplayOne;
    if a != [] {
      var n := |a| - 1;
      SameEventsSameFold(a[..n], b[..n]);
      if Fold(a[..n]).Replayed? {
        SameEventSameStep(Fold(a[..n]).value, a[n], b[n]);
      }
    }
  }

  /** Two valid chains with the same head hash replay to the same workspace. */
  lemma EqualHeadsEqualWorkspaces(a: seq<Sealed>, b: seq<Sealed>)
    requires ValidChain(a) && ValidChain(b) && a != [] && b != []
    requires a[|a| - 1].envelopeHash == b[|b| - 1].envelopeHash
    ensures Replay(a) == Replay(b)
  {
    HeadPinsHistory(a, b, |b| - 1);
    SameEventsSameFold(a, b);
    assert SameEvent(a[0], b[0]);
  }
}
