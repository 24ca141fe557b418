/** What an issuance stores, when it is answered, and how an issued grant dies with its parent (apps/daemon/src/grant-store.ts). */
module GrantIssuance {
  import opened Wrappers
  import opened Lists
  import opened Grants

  // ----- When an issuance is answered -----

  /** A grant with this digest is active: it and all its ancestors are unrevoked and unexpired at a time that could be read. */
  ghost predicate ActiveNow(s: GrantState, d: GrantDigest, clock: Timestamp) {
    exists i :: 0 <= i < |s.grants| && s.grants[i].Digest() == d && LiveLineage(s.grants, i, clock)
  }

  ghost predicate LiveLineage(grants: seq<Grant>, i: nat, clock: Timestamp) {
    clock.parsed.Some? && forall j :: 0 <= j < |grants| && Ancestor(grants, i, j) ==> Live(grants[j], clock.parsed.value)
  }

  lemma OneGrant(grants: seq<Grant>, i: nat, d: GrantDigest)
    requires DigestsDistinct(grants) && i < |grants| && grants[i].Digest() == d
    ensures Find(grants, d) == Some(i)
  {
  }

  lemma ActiveDigestIsActiveNow(s: GrantState, d: GrantDigest, clock: Timestamp)
    requires GoodState(s)
    ensures ActiveDigest(s, d, clock) <==> ActiveNow(s, d, clock)
  {
    var i := Find(s.grants, d);
    if i.Some? && clock.parsed.Some? {
      ActiveMeansAllAncestorsLive(s.grants, i.value, clock.parsed.value);
      assert LiveLineage(s.grants, i.value, clock) <==> Active(s.grants, i.value, clock.parsed.value);
    }
    hide Ancestor, Active, ParentsPrecede;
    if ActiveNow(s, d, clock) {
      var j :| 0 <= j < |s.grants| && s.grants[j].Digest() == d && LiveLineage(s.grants, j, clock);
      OneGrant(s.grants, j, d);
    }
  }

  /** The observation is of this very state, and its issuer is still active. */
  ghost predicate Authorised(s: GrantState, revision: nat, authorization: Option<Observation>, clock: Timestamp) {
    authorization.Some? ==>
      && authorization.value.revision == revision && authorization.value.state == s
      && ActiveNow(s, authorization.value.issuer, clock)
  }

  /** The request itself is in order: its parent, its methods, its expiry, and what is known of the same grant. */
  ghost predicate Acceptable(s: GrantState, r: Request, parent: Option<GrantDigest>, clock: Timestamp, registry: set<string>) {
    && (parent.Some? ==> ActiveNow(s, parent.value, clock))
    && r.methods != [] && (forall m :: m in r.methods ==> m in registry)
    && r.core.expiresAt.parsed.Some? && (clock.parsed.Some? ==> clock.parsed.value < r.core.expiresAt.parsed.value)
    && (forall g :: g in s.grants && g.core == Wanted(r) ==> !g.revoked && g.parent == parent)
  }

  /** The grant that a request asks for: its methods as a set. */
  function Wanted(r: Request): GrantCore {
    r.core.(allowedMethods := set m | m in r.methods)
  }

  predicate AnsweredBefore(s: GrantState, operation: Option<Operation>) {
    operation.Some? && operation.value.id in s.issuances
  }

  lemma RequestErrorMeans(s: GrantState, r: Request, parent: Option<GrantDigest>, clock: Timestamp, registry: set<string>)
    requires GoodState(s)
    ensures RequestError(s, r, parent, clock, registry).None? <==> Acceptable(s, r, parent, clock, registry)
  {
    if parent.Some? { ActiveDigestIsActiveNow(s, parent.value, clock); }
    assert Elements(r.methods) == Wanted(r).allowedMethods;
    var existing := Find(s.grants, GrantDigest(Wanted(r)));
    if existing.Some? {
      forall g | g in s.grants && g.core == Wanted(r) ensures g == s.grants[existing.value] {
        var i :| 0 <= i < |s.grants| && s.grants[i] == g;
        OneGrant(s.grants, i, GrantDigest(Wanted(r)));
      }
    }
    hide ActiveDigest, ActiveNow, GoodState, Find;
  }

  lemma MutationErrorMeans(s: GrantState, revision: nat, authorization: Option<Observation>, clock: Timestamp)
    requires GoodState(s)
    ensures MutationError(s, revision, authorization, clock).None? <==> Authorised(s, revision, authorization, clock)
  {
    if authorization.Some? { ActiveDigestIsActiveNow(s, authorization.value.issuer, clock); }
    hide ActiveDigest, ActiveNow;
  }

  /** An issuance is answered exactly when the store can be read, the caller is authorised, and the request is in order or was answered before. */
  lemma IssueAnsweredExactly(s: GrantState, revision: nat, workspaceId: string, registry: set<string>, r: Request,
                             parent: Option<GrantDigest>, operation: Option<Operation>, authorization: Option<Observation>,
                             clock: Timestamp, drawn: string)
    requires GoodState(s)
    ensures Issue(s, revision, workspaceId, registry, r, parent, operation, authorization, clock, drawn).IssueDone? <==>
            && r.core.workspaceId == workspaceId
            && (forall id :: id in s.issuances ==> s.issuances[id].issuedAt.parsed.Some?)
            && Authorised(s, revision, authorization, clock)
            && (operation.Some? ==> operation.value.id != "" && operation.value.requestDigest != "")
            && if AnsweredBefore(s, operation) then s.issuances[operation.value.id].requestDigest == operation.value.requestDigest
               else Acceptable(s, r, parent, clock, registry)
  {
    assert ParsesState(s) <==> forall id :: id in s.issuances ==> s.issuances[id].issuedAt.parsed.Some?;
    MutationErrorMeans(s, revision, authorization, clock);
    RequestErrorMeans(s, r, parent, clock, registry);
    assert AnsweredBefore(s, operation) ==> Find(s.grants, s.issuances[operation.value.id].grantDigest).Some?;
    hide MutationError, RequestError, GoodState, ParsesState, Authorised, Acceptable, Find;
  }

  // ----- What an issuance stores -----

  /** The grant at a place is the one that was asked for, under its parent, unrevoked and with this reference. */
  predicate IsGrantOf(s: GrantState, n: nat, r: Request, parent: Option<GrantDigest>, reference: string) {
    n < |s.grants| && s.grants[n] == Grant(Wanted(r), false, reference, parent)
  }

  /**
   * An issuance that was not answered before: a new grant is appended under its parent with the drawn
   * reference, and a known one is given again; what was stored stays, and a named operation is put on
   * record with the digest of the grant and the time.
   */
  lemma IssuanceStores(s: GrantState, revision: nat, workspaceId: string, registry: set<string>, r: Request,
                       parent: Option<GrantDigest>, operation: Option<Operation>, authorization: Option<Observation>,
                       clock: Timestamp, drawn: string)
    requires GoodState(s) && !AnsweredBefore(s, operation)
    requires Issue(s, revision, workspaceId, registry, r, parent, operation, authorization, clock, drawn).IssueDone?
    ensures var outcome := Issue(s, revision, workspaceId, registry, r, parent, operation, authorization, clock, drawn);
            var known := exists g :: g in s.grants && g.core == Wanted(r);
            && outcome.issued.core == Wanted(r) && !outcome.issued.revoked && outcome.issued.issuedAt == clock
            && (outcome.next.None? <==> known && operation.None?)
            && (outcome.next.Some? ==>
                  && |outcome.next.value.grants| == |s.grants| + (if known then 0 else 1)
                  && outcome.next.value.grants[..|s.grants|] == s.grants
                  && (!known ==> IsGrantOf(outcome.next.value, |s.grants|, r, parent, drawn) && outcome.issued.reference == drawn)
                  && outcome.next.value.issuances
                  == if operation.None? then s.issuances
                     else s.issuances[operation.value.id := Issuance(operation.value.requestDigest, GrantDigest(Wanted(r)), clock)])
            && (known ==> exists n :: IsGrantOf(s, n, r, parent, outcome.issued.reference))
  {
    IssuanceChecked(s, revision, workspaceId, registry, r, parent, operation, authorization, clock, drawn);
    RequestErrorMeans(s, r, parent, clock, registry);
    SomeKnown(s, r);
    hide Issue, GoodState, Find, ActiveNow, Elements, Wanted, RequestError, NextState;
    var existing := Find(s.grants, GrantDigest(Wanted(r)));
    Stored(s, r, parent, operation, clock, drawn);
    if existing.Some? {
      KnownGrant(s, r, parent, clock, registry, existing.value);
    }
    hide IsGrantOf, Acceptable;
  }

  lemma KnownGrant(s: GrantState, r: Request, parent: Option<GrantDigest>, clock: Timestamp, registry: set<string>, n: nat)
    requires Acceptable(s, r, parent, clock, registry) && n < |s.grants| && s.grants[n].core == Wanted(r)
    ensures IsGrantOf(s, n, r, parent, s.grants[n].reference)
  {
    assert s.grants[n] in s.grants;
  }

  lemma Stored(s: GrantState, r: Request, parent: Option<GrantDigest>, operation: Option<Operation>, clock: Timestamp, drawn: string)
    ensures var (t, known) := (NextState(s, Wanted(r), parent, operation, clock, drawn), Find(s.grants, GrantDigest(Wanted(r))).Some?);
            && |t.grants| == |s.grants| + (if known then 0 else 1) && t.grants[..|s.grants|] == s.grants
            && (!known ==> IsGrantOf(t, |s.grants|, r, parent, drawn))
            && t.issuances == if operation.None? then s.issuances
                              else s.issuances[operation.value.id := Issuance(operation.value.requestDigest, GrantDigest(Wanted(r)), clock)]
  {
    hide Find, Wanted;
  }

  lemma SomeKnown(s: GrantState, r: Request)
    ensures Find(s.grants, GrantDigest(Wanted(r))).Some? <==> exists g :: g in s.grants && g.core == Wanted(r)
  {
    var existing := Find(s.grants, GrantDigest(Wanted(r)));
    if existing.Some? { assert s.grants[existing.value] in s.grants; }
    hide Wanted;
  }

  /** An issuance that was not answered before passed the checks of its request. */
  lemma IssuanceChecked(s: GrantState, revision: nat, workspaceId: string, registry: set<string>, r: Request,
                        parent: Option<GrantDigest>, operation: Option<Operation>, authorization: Option<Observation>,
                        clock: Timestamp, drawn: string)
    requires ParentsPrecede(s.grants) && !AnsweredBefore(s, operation)
    requires Issue(s, revision, workspaceId, registry, r, parent, operation, authorization, clock, drawn).IssueDone?
    ensures RequestError(s, r, parent, clock, registry).None?
    ensures var (outcome, existing) := (Issue(s, revision, workspaceId, registry, r, parent, operation, authorization, clock, drawn),
                                        Find(s.grants, GrantDigest(Wanted(r))));
            outcome == IssueDone(Issued(if existing.Some? then s.grants[existing.value].reference else drawn, Wanted(r), false, clock),
                                 if operation.Some? || existing.None? then Some(NextState(s, Wanted(r), parent, operation, clock, drawn)) else None)
  {
    assert CoreOf(r) == Wanted(r);
    hide MutationError, RequestError, ParsesState, ParentsPrecede, Find, Wanted, NextState;
  }

  // ----- A grant dies with its parent -----

  /** In the state after an issuance the returned reference names a grant whose parent is the one that was asked for. */
  lemma IssuedUnder(s: GrantState, t: GrantState, revision: nat, workspaceId: string, registry: set<string>, r: Request,
                    d: GrantDigest, operation: Option<Operation>, authorization: Option<Observation>, clock: Timestamp, drawn: string)
    returns (n: nat)
    requires GoodState(s) && !AnsweredBefore(s, operation)
    requires var outcome := Issue(s, revision, workspaceId, registry, r, Some(d), operation, authorization, clock, drawn);
             outcome.IssueDone? && t == (if outcome.next.Some? then outcome.next.value else s)
    ensures var outcome := Issue(s, revision, workspaceId, registry, r, Some(d), operation, authorization, clock, drawn);
            IsGrantOf(t, n, r, Some(d), outcome.issued.reference)
  {
    assert ParentsPrecede(s.grants);
    hide Issue, GoodState;
    IssuanceStores(s, revision, workspaceId, registry, r, Some(d), operation, authorization, clock, drawn);
    var outcome := Issue(s, revision, workspaceId, registry, r, Some(d), operation, authorization, clock, drawn);
    if exists g :: g in s.grants && g.core == Wanted(r) {
      n :| IsGrantOf(s, n, r, Some(d), outcome.issued.reference);
      assert outcome.next.Some? ==> t.grants[..|s.grants|][n] == s.grants[n];
    } else {
      n := |s.grants|;
    }
  }

  lemma ParentIsAncestor(grants: seq<Grant>, n: nat, d: GrantDigest)
    requires ParentsPrecede(grants) && n < |grants| && grants[n].parent == Some(d)
    ensures Find(grants, d).Some? && grants[Find(grants, d).value].Digest() == d && Ancestor(grants, n, Find(grants, d).value)
  {
    var p := Find(grants, d).value;
    assert LineagePath(grants, [n, p]);
    assert [n, p][0] == n && [n, p][|[n, p]| - 1] == p;
  }

  lemma SameGrantLater(s: GrantState, t: GrantState, n: nat, r: Request, d: GrantDigest, reference: string)
    requires Evolves(s, t) && IsGrantOf(s, n, r, Some(d), reference)
    ensures n < |t.grants| && t.grants[n].parent == Some(d) && t.grants[n].reference == reference
  {
    assert Ages(s.grants[n], t.grants[n]);
  }

  lemma OneReference(grants: seq<Grant>, i: nat, j: nat)
    requires ReferencesDistinct(grants) && i < |grants| && j < |grants| && grants[i].reference == grants[j].reference
    ensures i == j
  {
  }

  lemma RevokedStays(s: GrantState, t: GrantState, p: nat)
    requires Evolves(s, t) && p < |s.grants| && s.grants[p].revoked
    ensures p < |t.grants| && t.grants[p].revoked && t.grants[p].Digest() == s.grants[p].Digest()
  {
    assert Ages(s.grants[p], t.grants[p]);
  }

  /**
   * In every history: once the parent of an issued grant is revoked, the grant that the returned
   * reference names is inactive in every later state and at every time.
   */
  lemma IssuedDiesWithParent(states: seq<GrantState>, reference: string, core: GrantCore, i: nat, j: nat, k: nat,
                             revision: nat, workspaceId: string, registry: set<string>, r: Request, d: GrantDigest,
                             operation: Option<Operation>, authorization: Option<Observation>, clock: Timestamp, drawn: string,
                             p: nat, m: nat, now: int)
    requires History(states, reference, core) && i + 1 <= j <= k < |states| && !AnsweredBefore(states[i], operation)
    requires IssueStores(states[i], states[i + 1], revision, workspaceId, registry, r, Some(d), operation, authorization, clock, drawn)
    requires p < |states[j].grants| && states[j].grants[p].Digest() == d && states[j].grants[p].revoked
    requires m < |states[k].grants|
    requires states[k].grants[m].reference
          == Issue(states[i], revision, workspaceId, registry, r, Some(d), operation, authorization, clock, drawn).issued.reference
    ensures GoodState(states[k]) && !Active(states[k].grants, m, now)
  {
    hide Stores;
    ReachableStoreIsGood(states, reference, core, i);
    ReachableStoreIsGood(states, reference, core, k);
    HistoryEvolves(states, reference, core, i + 1, k);
    HistoryEvolves(states, reference, core, j, k);
    hide History, Evolves, Active, Issue, Ancestor, Find;
    var n := IssuedUnder(states[i], states[i + 1], revision, workspaceId, registry, r, d, operation, authorization, clock, drawn);
    var issued := Issue(states[i], revision, workspaceId, registry, r, Some(d), operation, authorization, clock, drawn).issued;
    SameGrantLater(states[i + 1], states[k], n, r, d, issued.reference);
    OneReference(states[k].grants, m, n);
    ParentIsAncestor(states[k].grants, n, d);
    RevokedStays(states[j], states[k], p);
    OneGrant(states[k].grants, p, d);
    ActiveMeansAllAncestorsLive(states[k].grants, m, now);
  }

  /** And the grant is there: its reference goes on naming it. */
  lemma IssuedStays(states: seq<GrantState>, reference: string, core: GrantCore, i: nat, k: nat,
                    revision: nat, workspaceId: string, registry: set<string>, r: Request, d: GrantDigest,
                    operation: Option<Operation>, authorization: Option<Observation>, clock: Timestamp, drawn: string)
    returns (m: nat)
    requires History(states, reference, core) && i + 1 <= k < |states| && !AnsweredBefore(states[i], operation)
    requires IssueStores(states[i], states[i + 1], revision, workspaceId, registry, r, Some(d), operation, authorization, clock, drawn)
    ensures m < |states[k].grants| && states[k].grants[m].core == Wanted(r) && states[k].grants[m].parent == Some(d)
    ensures states[k].grants[m].reference
         == Issue(states[i], revision, workspaceId, registry, r, Some(d), operation, authorization, clock, drawn).issued.reference
  {
    hide Stores;
    ReachableStoreIsGood(states, reference, core, i);
    HistoryEvolves(states, reference, core, i + 1, k);
    hide History, Issue;
    m := IssuedUnder(states[i], states[i + 1], revision, workspaceId, registry, r, d, operation, authorization, clock, drawn);
    assert Ages(states[i + 1].grants[m], states[k].grants[m]);
  }

  // ----- What a revocation stores -----

  /**
   * A revocation stores something exactly when the store can be read, the caller is authorised and
   * the reference names a grant that is not revoked; then that grant is revoked and nothing else changes.
   */
  lemma RevokedExactly(s: GrantState, revision: nat, reference: string, authorization: Option<Observation>, clock: Timestamp)
    requires GoodState(s)
    ensures Revoke(s, revision, reference, authorization, clock).Revoked? <==>
            && (forall id :: id in s.issuances ==> s.issuances[id].issuedAt.parsed.Some?)
            && Authorised(s, revision, authorization, clock)
            && exists g :: g in s.grants && g.reference == reference && !g.revoked
    ensures Revoke(s, revision, reference, authorization, clock).Revoked? ==>
              var t := Revoke(s, revision, reference, authorization, clock).next;
              && t.issuances == s.issuances && |t.grants| == |s.grants|
              && forall i :: 0 <= i < |s.grants| ==>
                   t.grants[i] == if s.grants[i].reference == reference then s.grants[i].(revoked := true) else s.grants[i]
  {
    assert ParsesState(s) <==> forall id :: id in s.issuances ==> s.issuances[id].issuedAt.parsed.Some?;
    MutationErrorMeans(s, revision, authorization, clock);
    var i := FindReference(s.grants, reference);
    if i.Some? { assert s.grants[i.value] in s.grants; }
    forall j | 0 <= j < |s.grants| && s.grants[j].reference == reference ensures i == Some(j) {
      assert i.Some?;
      OneReference(s.grants, i.value, j);
    }
    hide MutationError, ParsesState, Authorised, GoodState, FindReference;
  }

  /** A store begins with one grant, a root, which is active until it expires. */
  lemma RootAtFirst(reference: string, core: GrantCore, now: int)
    ensures var s := InitialState(reference, core);
            && |s.grants| == 1 && s.grants[0].core == core && s.grants[0].reference == reference && s.grants[0].parent == None && s.issuances == map[]
            && (Active(s.grants, 0, now) <==> core.expiresAt.parsed.Some? && now < core.expiresAt.parsed.value)
  {
  }
}
