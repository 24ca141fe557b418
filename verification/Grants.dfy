/** The grant lineage store (apps/daemon/src/grant-store.ts). */
module Grants {
  import opened Wrappers
  import opened Lists

  /** A time as it is stored: its text, and what `Date.parse` makes of it. */
  datatype Timestamp = Timestamp(text: string, parsed: Option<int>)

  /** What a grant's digest is taken of. */
  datatype GrantCore = GrantCore(
    principalId: string,
    principalRole: string,
    peerIdentity: string,
    expiresAt: Timestamp,
    workspaceId: string,
    runId: Option<string>,
    taskId: Option<string>,
    attemptId: Option<string>,
    generation: Option<int>,
    proposalId: Option<string>,
    adapterId: Option<string>,
    allowedMethods: set<string>)

  datatype GrantDigest = GrantDigest(core: GrantCore)

  datatype Grant = Grant(core: GrantCore, revoked: bool, reference: string, parent: Option<GrantDigest>) {
    function Digest(): GrantDigest {
      GrantDigest(core)
    }
  }

  datatype Issuance = Issuance(requestDigest: string, grantDigest: GrantDigest, issuedAt: Timestamp)

  datatype GrantState = GrantState(grants: seq<Grant>, issuances: map<string, Issuance>)

  /** `GrantStore.initialState`. */
  function InitialState(reference: string, core: GrantCore): GrantState {
    GrantState([Grant(core, false, reference, None)], map[])
  }

  datatype GrantError =
    | CrossWorkspace | StateInvalid | ObservationConflict | GrantInvalid | InvalidParams
    | UnsupportedMethods | StaleExpiry | TargetMissing

  // ----- Finding grants -----

  /** The place of the first grant with a digest. */
  function Find(grants: seq<Grant>, d: GrantDigest): (r: Option<nat>)
    ensures r.Some? ==> r.value < |grants| && grants[r.value].Digest() == d && forall j :: 0 <= j < r.value ==> grants[j].Digest() != d
    ensures r.None? ==> forall j :: 0 <= j < |grants| ==> grants[j].Digest() != d
  {
    if grants == [] then None
    else if grants[0].Digest() == d then Some(0)
    else
      var rest := Find(grants[1..], d);
      if rest.None? then None else Some(rest.value + 1)
  }

  function FindReference(grants: seq<Grant>, reference: string): (r: Option<nat>)
    ensures r.Some? ==> r.value < |grants| && grants[r.value].reference == reference
    ensures r.None? ==> forall j :: 0 <= j < |grants| ==> grants[j].reference != reference
  {
    if grants == [] then None
    else if grants[0].reference == reference then Some(0)
    else
      var rest := FindReference(grants[1..], reference);
      if rest.None? then None else Some(rest.value + 1)
  }

  // ----- What the store keeps -----

  predicate DigestsDistinct(grants: seq<Grant>) {
    forall i, j :: 0 <= i < j < |grants| ==> grants[i].Digest() != grants[j].Digest()
  }

  predicate ReferencesDistinct(grants: seq<Grant>) {
    forall i, j :: 0 <= i < j < |grants| ==> grants[i].reference != grants[j].reference
  }

  /** Every parent comes before its children. */
  predicate ParentsPrecede(grants: seq<Grant>) {
    forall i :: 0 <= i < |grants| && grants[i].parent.Some? ==>
                  Find(grants, grants[i].parent.value).Some? && Find(grants, grants[i].parent.value).value < i
  }

  predicate IssuancesKnown(s: GrantState) {
    forall id :: id in s.issuances ==> Find(s.grants, s.issuances[id].grantDigest).Some?
  }

  predicate GoodState(s: GrantState) {
    DigestsDistinct(s.grants) && ReferencesDistinct(s.grants) && ParentsPrecede(s.grants) && IssuancesKnown(s)
  }

  /** `parseState` accepts the stored state. */
  predicate ParsesState(s: GrantState) {
    && DigestsDistinct(s.grants) && ReferencesDistinct(s.grants) && IssuancesKnown(s)
    && forall id :: id in s.issuances ==> s.issuances[id].issuedAt.parsed.Some?
  }

  // ----- Activity -----

  predicate Live(g: Grant, now: int) {
    !g.revoked && g.core.expiresAt.parsed.Some? && now < g.core.expiresAt.parsed.value
  }

  function ParentIndex(grants: seq<Grant>, i: nat): Option<nat>
    requires i < |grants|
  {
    if grants[i].parent.None? then None else Find(grants, grants[i].parent.value)
  }

  /** The grant and all its ancestors are unrevoked and unexpired, by recursion on the lineage. */
  predicate Active(grants: seq<Grant>, i: nat, now: int)
    requires ParentsPrecede(grants) && i < |grants|
    decreases i
  {
    && Live(grants[i], now)
    && (grants[i].parent.Some? ==> Active(grants, Find(grants, grants[i].parent.value).value, now))
  }

  predicate ActiveAt(grants: seq<Grant>, i: nat, clock: Timestamp)
    requires ParentsPrecede(grants) && i < |grants|
  {
    clock.parsed.Some? && Active(grants, i, clock.parsed.value)
  }

  /** A chain of grants, each followed by its parent. */
  predicate LineagePath(grants: seq<Grant>, p: seq<nat>) {
    && p != []
    && (forall k :: 0 <= k < |p| ==> p[k] < |grants|)
    && (forall k :: 0 <= k < |p| - 1 ==> ParentIndex(grants, p[k]) == Some(p[k + 1]))
  }

  ghost predicate Ancestor(grants: seq<Grant>, i: nat, j: nat) {
    exists p :: LineagePath(grants, p) && p[0] == i && p[|p| - 1] == j
  }

  lemma {:induction false} ActiveCoversPath(grants: seq<Grant>, p: seq<nat>, now: int)
    requires ParentsPrecede(grants) && LineagePath(grants, p) && Active(grants, p[0], now)
    ensures Active(grants, p[|p| - 1], now)
  {
    if |p| > 1 {
      var rest := p[1..];
      assert forall k :: 0 <= k < |rest| ==> rest[k] == p[k + 1];
      assert ParentIndex(grants, p[0]) == Some(p[1]);
      ActiveCoversPath(grants, rest, now);
    }
  }

  lemma AncestorOfParent(grants: seq<Grant>, i: nat, parent: nat, j: nat)
    requires i < |grants| && ParentIndex(grants, i) == Some(parent) && Ancestor(grants, parent, j)
    ensures Ancestor(grants, i, j)
  {
    hide ParentIndex;
    var p :| LineagePath(grants, p) && p[0] == parent && p[|p| - 1] == j;
    var longer := [i] + p;
    assert forall k :: 0 <= k < |p| ==> longer[k + 1] == p[k];
    assert LineagePath(grants, longer);
    assert longer[0] == i && longer[|longer| - 1] == j;
  }

  lemma {:induction false} ActiveFromAncestors(grants: seq<Grant>, i: nat, now: int)
    requires ParentsPrecede(grants) && i < |grants|
    requires forall j :: 0 <= j < |grants| && Ancestor(grants, i, j) ==> Live(grants[j], now)
    ensures Active(grants, i, now)
    decreases i
  {
    assert LineagePath(grants, [i]);
    assert Ancestor(grants, i, i);
    if grants[i].parent.Some? {
      var parent := Find(grants, grants[i].parent.value).value;
      forall j | 0 <= j < |grants| && Ancestor(grants, parent, j) ensures Live(grants[j], now) {
        AncestorOfParent(grants, i, parent, j);
      }
      hide Ancestor, Live;
      ActiveFromAncestors(grants, parent, now);
    }
  }

  /** A grant is active exactly when every one of its ancestors, itself included, is unrevoked and unexpired. */
  lemma ActiveMeansAllAncestorsLive(grants: seq<Grant>, i: nat, now: int)
    requires ParentsPrecede(grants) && i < |grants|
    ensures Active(grants, i, now) <==> forall j :: 0 <= j < |grants| && Ancestor(grants, i, j) ==> Live(grants[j], now)
  {
    if Active(grants, i, now) {
      forall j | 0 <= j < |grants| && Ancestor(grants, i, j) ensures Live(grants[j], now) {
        var p :| LineagePath(grants, p) && p[0] == i && p[|p| - 1] == j;
        ActiveCoversPath(grants, p, now);
      }
    } else if forall j :: 0 <= j < |grants| && Ancestor(grants, i, j) ==> Live(grants[j], now) {
      ActiveFromAncestors(grants, i, now);
    }
  }

  /** `activeInLineage`: the walk to the root, whose guard against repetition never fires. */
  method ActiveInLineage(grants: seq<Grant>, i: nat, clock: Timestamp) returns (active: bool)
    requires DigestsDistinct(grants) && ParentsPrecede(grants) && i < |grants|
    ensures active == ActiveAt(grants, i, clock)
  {
    var seen: set<GrantDigest> := {};
    if clock.parsed.None? {
      return false;
    }
    var now := clock.parsed.value;
    var current: nat := i;
    while true
      invariant current <= i
      invariant Active(grants, i, now) == Active(grants, current, now)
      invariant forall d :: d in seen ==> exists j :: current < j < |grants| && grants[j].Digest() == d
      decreases current
    {
      var grant := grants[current];
      if !Live(grant, now) || grant.Digest() in seen {
        return false;
      }
      if grant.parent.None? {
        return true;
      }
      seen := seen + {grant.Digest()};
      var parent := Find(grants, grant.parent.value);
      if parent.None? {
        return false;
      }
      current := parent.value;
    }
  }

  // ----- Issuing and revoking -----

  datatype Request = Request(core: GrantCore, methods: seq<string>)

  datatype Operation = Operation(id: string, requestDigest: string)

  /** What a caller observed of the store: the digest of its state is the state. */
  datatype Observation = Observation(issuer: GrantDigest, revision: nat, state: GrantState)

  datatype Issued = Issued(reference: string, core: GrantCore, revoked: bool, issuedAt: Timestamp)

  /** The outcome of `issue`: an error, or what is returned and the state to store, if it is stored again. */
  datatype IssueOutcome = IssueRefused(error: GrantError) | IssueDone(issued: Issued, next: Option<GrantState>)

  predicate ActiveDigest(s: GrantState, d: GrantDigest, clock: Timestamp)
    requires ParentsPrecede(s.grants)
  {
    var i := Find(s.grants, d);
    i.Some? && ActiveAt(s.grants, i.value, clock)
  }

  /** `assertMutationAuthority`. */
  function MutationError(s: GrantState, revision: nat, authorization: Option<Observation>, clock: Timestamp): Option<GrantError>
    requires ParentsPrecede(s.grants)
  {
    if authorization.None? then None
    else if authorization.value.revision != revision || authorization.value.state != s then Some(ObservationConflict)
    else if !ActiveDigest(s, authorization.value.issuer, clock) then Some(GrantInvalid)
    else None
  }

  function CoreOf(r: Request): GrantCore {
    r.core.(allowedMethods := Elements(r.methods))
  }

  /** The checks on a request that was not answered before. */
  function RequestError(s: GrantState, r: Request, parent: Option<GrantDigest>, clock: Timestamp, registry: set<string>): Option<GrantError>
    requires ParentsPrecede(s.grants)
  {
    var expires := r.core.expiresAt.parsed;
    if parent.Some? && !ActiveDigest(s, parent.value, clock) then Some(GrantInvalid)
    else if r.methods == [] || !(Elements(r.methods) <= registry) then Some(UnsupportedMethods)
    else if expires.None? || (clock.parsed.Some? && expires.value <= clock.parsed.value) then Some(StaleExpiry)
    else
      var existing := Find(s.grants, GrantDigest(CoreOf(r)));
      if existing.Some? && (s.grants[existing.value].revoked || s.grants[existing.value].parent != parent) then Some(GrantInvalid)
      else None
  }

  /** `issue`, given the reference that would be drawn for a new grant. */
  function Issue(s: GrantState, revision: nat, workspaceId: string, registry: set<string>, r: Request, parent: Option<GrantDigest>,
                 operation: Option<Operation>, authorization: Option<Observation>, clock: Timestamp, drawn: string): IssueOutcome
    requires ParentsPrecede(s.grants)
  {
    if r.core.workspaceId != workspaceId then IssueRefused(CrossWorkspace)
    else if !ParsesState(s) then IssueRefused(StateInvalid)
    else if MutationError(s, revision, authorization, clock).Some? then IssueRefused(MutationError(s, revision, authorization, clock).value)
    else if operation.Some? && (operation.value.id == "" || operation.value.requestDigest == "") then IssueRefused(InvalidParams)
    else if operation.Some? && operation.value.id in s.issuances then Reissue(s, s.issuances[operation.value.id], operation.value)
    else if RequestError(s, r, parent, clock, registry).Some? then IssueRefused(RequestError(s, r, parent, clock, registry).value)
    else
      var existing := Find(s.grants, GrantDigest(CoreOf(r)));
      var reference := if existing.Some? then s.grants[existing.value].reference else drawn;
      IssueDone(Issued(reference, CoreOf(r), false, clock),
                if operation.Some? || existing.None? then Some(NextState(s, CoreOf(r), parent, operation, clock, drawn)) else None)
  }

  /** The state with the grant, if it is not there yet, and with the issuance, if the caller named its operation. */
  function NextState(s: GrantState, core: GrantCore, parent: Option<GrantDigest>, operation: Option<Operation>,
                     clock: Timestamp, drawn: string): GrantState {
    var grants := if Find(s.grants, GrantDigest(core)).Some? then s.grants else s.grants + [Grant(core, false, drawn, parent)];
    GrantState(grants, if operation.None? then s.issuances
                       else s.issuances[operation.value.id := Issuance(operation.value.requestDigest, GrantDigest(core), clock)])
  }

  function Reissue(s: GrantState, prior: Issuance, operation: Operation): IssueOutcome {
    if prior.requestDigest != operation.requestDigest then IssueRefused(InvalidParams)
    else
      var stored := Find(s.grants, prior.grantDigest);
      if stored.None? then IssueRefused(TargetMissing)
      else
        var g := s.grants[stored.value];
        IssueDone(Issued(g.reference, g.core, g.revoked, prior.issuedAt), None)
  }

  function WithRevoked(grants: seq<Grant>, i: nat): seq<Grant>
    requires i < |grants|
  {
    grants[i := grants[i].(revoked := true)]
  }

  /** The outcome of `revoke`: an error, or the state to store if something was revoked. */
  datatype RevokeOutcome = RevokeRefused(error: GrantError) | NothingRevoked | Revoked(next: GrantState)

  function Revoke(s: GrantState, revision: nat, reference: string, authorization: Option<Observation>, clock: Timestamp): RevokeOutcome
    requires ParentsPrecede(s.grants)
  {
    if !ParsesState(s) then RevokeRefused(StateInvalid)
    else if MutationError(s, revision, authorization, clock).Some? then RevokeRefused(MutationError(s, revision, authorization, clock).value)
    else
      var i := FindReference(s.grants, reference);
      if i.None? || s.grants[i.value].revoked then NothingRevoked
      else Revoked(s.(grants := WithRevoked(s.grants, i.value)))
  }

  // ----- How the store grows -----

  /** The same grant, unless it was revoked. */
  predicate Ages(g: Grant, h: Grant) {
    h == g || h == g.(revoked := true)
  }

  /** Grants keep their places and are at most revoked; answered requests keep their answers. */
  ghost predicate Evolves(s: GrantState, t: GrantState) {
    && |s.grants| <= |t.grants|
    && (forall i :: 0 <= i < |s.grants| ==> Ages(s.grants[i], t.grants[i]))
    && (forall id :: id in s.issuances ==> id in t.issuances && t.issuances[id] == s.issuances[id])
  }

  lemma EvolvesTransitive(s: GrantState, t: GrantState, u: GrantState)
    requires Evolves(s, t) && Evolves(t, u)
    ensures Evolves(s, u)
  {
    forall i | 0 <= i < |s.grants| ensures Ages(s.grants[i], u.grants[i]) {
      assert Ages(s.grants[i], t.grants[i]) && Ages(t.grants[i], u.grants[i]);
    }
  }

  lemma FindLater(s: seq<Grant>, t: seq<Grant>, d: GrantDigest)
    requires |s| <= |t| && forall i :: 0 <= i < |s| ==> s[i].Digest() == t[i].Digest()
    ensures Find(s, d).Some? ==> Find(t, d) == Find(s, d)
    ensures Find(s, d).None? && Find(t, d).Some? ==> Find(t, d).value >= |s|
  {
  }

  lemma ParentsStillPrecede(s: seq<Grant>, t: seq<Grant>)
    requires ParentsPrecede(s) && |s| == |t| && forall i :: 0 <= i < |s| ==> Ages(s[i], t[i])
    ensures ParentsPrecede(t)
  {
    forall i | 0 <= i < |t| && t[i].parent.Some? ensures Find(t, t[i].parent.value).Some? && Find(t, t[i].parent.value).value < i {
      FindLater(s, t, t[i].parent.value);
    }
  }

  lemma RevokeKeeps(s: GrantState, revision: nat, reference: string, authorization: Option<Observation>, clock: Timestamp)
    requires GoodState(s)
    requires Revoke(s, revision, reference, authorization, clock).Revoked?
    ensures var t := Revoke(s, revision, reference, authorization, clock).next;
            GoodState(t) && Evolves(s, t) && ParsesState(t)
  {
    hide MutationError, GoodState, Evolves, ParsesState;
    GrantRevoked(s, FindReference(s.grants, reference).value);
  }

  lemma GrantRevoked(s: GrantState, i: nat)
    requires GoodState(s) && ParsesState(s) && i < |s.grants|
    ensures var t := s.(grants := WithRevoked(s.grants, i)); GoodState(t) && Evolves(s, t) && ParsesState(t)
  {
    var grants := WithRevoked(s.grants, i);
    assert forall j :: 0 <= j < |s.grants| ==> Ages(s.grants[j], grants[j]);
    ParentsStillPrecede(s.grants, grants);
    hide ParentsPrecede, Find;
    forall id | id in s.issuances ensures Find(grants, s.issuances[id].grantDigest).Some? {
      FindLater(s.grants, grants, s.issuances[id].grantDigest);
    }
  }

  lemma GrantAppended(s: GrantState, g: Grant)
    requires GoodState(s) && Find(s.grants, g.Digest()).None? && (g.parent.Some? ==> Find(s.grants, g.parent.value).Some?)
    requires forall h :: h in s.grants ==> h.reference != g.reference
    ensures GoodState(s.(grants := s.grants + [g]))
  {
    var grants := s.grants + [g];
    forall d ensures Find(s.grants, d).Some? ==> Find(grants, d) == Find(s.grants, d) {
      FindLater(s.grants, grants, d);
    }
  }

  lemma NextStateKeeps(s: GrantState, core: GrantCore, parent: Option<GrantDigest>, operation: Option<Operation>, clock: Timestamp, drawn: string)
    requires GoodState(s) && ParsesState(s) && (parent.Some? ==> Find(s.grants, parent.value).Some?)
    requires forall g :: g in s.grants ==> g.reference != drawn
    requires operation.Some? ==> operation.value.id !in s.issuances
    ensures var t := NextState(s, core, parent, operation, clock, drawn);
            && GoodState(t) && Evolves(s, t)
            && (ParsesState(t) <==> clock.parsed.Some? || operation.None?)
  {
    var t := NextState(s, core, parent, operation, clock, drawn);
    var grown := s.(grants := t.grants);
    if Find(s.grants, GrantDigest(core)).None? {
      GrantAppended(s, Grant(core, false, drawn, parent));
    }
    assert GoodState(grown) && Evolves(s, grown);
    hide GoodState;
    assert Find(t.grants, GrantDigest(core)).Some? by {
      assert Find(s.grants, GrantDigest(core)).None? ==> t.grants[|s.grants|].Digest() == GrantDigest(core);
    }
    hide Find, DigestsDistinct, ReferencesDistinct, ParentsPrecede;
    IssuancesAfter(s, t, operation, clock, core);
  }

  lemma IssuancesAfter(s: GrantState, t: GrantState, operation: Option<Operation>, clock: Timestamp, core: GrantCore)
    requires ParsesState(s) && GoodState(s.(grants := t.grants)) && Find(t.grants, GrantDigest(core)).Some?
    requires operation.Some? ==> operation.value.id !in s.issuances
    requires t.issuances == if operation.None? then s.issuances
                            else s.issuances[operation.value.id := Issuance(operation.value.requestDigest, GrantDigest(core), clock)]
    ensures GoodState(t)
    ensures forall id :: id in s.issuances ==> id in t.issuances && t.issuances[id] == s.issuances[id]
    ensures ParsesState(t) <==> clock.parsed.Some? || operation.None?
  {
    hide Find, DigestsDistinct, ReferencesDistinct, ParentsPrecede;
    if operation.Some? {
      assert t.issuances[operation.value.id].issuedAt == clock;
    }
  }

  /**
   * Issuing keeps the store good, and what was in it.  What it stores can be read back exactly when
   * the clock could be read or no operation was named.
   */
  lemma IssueKeeps(s: GrantState, revision: nat, workspaceId: string, registry: set<string>, r: Request, parent: Option<GrantDigest>,
                   operation: Option<Operation>, authorization: Option<Observation>, clock: Timestamp, drawn: string)
    requires GoodState(s) && forall g :: g in s.grants ==> g.reference != drawn
    ensures var outcome := Issue(s, revision, workspaceId, registry, r, parent, operation, authorization, clock, drawn);
            outcome.IssueDone? && outcome.next.Some? ==>
              && GoodState(outcome.next.value) && Evolves(s, outcome.next.value)
              && (ParsesState(outcome.next.value) <==> clock.parsed.Some? || operation.None?)
  {
    assert ParentsPrecede(s.grants);
    hide MutationError, Evolves, ParsesState, GoodState, NextState, Find;
    var outcome := Issue(s, revision, workspaceId, registry, r, parent, operation, authorization, clock, drawn);
    if outcome.IssueDone? && outcome.next.Some? {
      NextStateKeeps(s, CoreOf(r), parent, operation, clock, drawn);
    }
  }

  // ----- Whole histories -----

  /** One call that stores a new state. */
  ghost predicate Stores(s: GrantState, t: GrantState) {
    || (exists revision, workspaceId, registry, r, parent, operation, authorization, clock, drawn ::
          IssueStores(s, t, revision, workspaceId, registry, r, parent, operation, authorization, clock, drawn))
    || (exists revision, reference, authorization, clock :: RevokeStores(s, t, revision, reference, authorization, clock))
  }

  ghost predicate IssueStores(s: GrantState, t: GrantState, revision: nat, workspaceId: string, registry: set<string>, r: Request,
                              parent: Option<GrantDigest>, operation: Option<Operation>, authorization: Option<Observation>,
                              clock: Timestamp, drawn: string) {
    && ParentsPrecede(s.grants)
    && (forall g :: g in s.grants ==> g.reference != drawn)
    && var outcome := Issue(s, revision, workspaceId, registry, r, parent, operation, authorization, clock, drawn);
       outcome.IssueDone? && outcome.next == Some(t)
  }

  ghost predicate RevokeStores(s: GrantState, t: GrantState, revision: nat, reference: string, authorization: Option<Observation>, clock: Timestamp) {
    ParentsPrecede(s.grants) && Revoke(s, revision, reference, authorization, clock) == Revoked(t)
  }

  lemma StoresKeeps(s: GrantState, t: GrantState)
    requires GoodState(s) && Stores(s, t)
    ensures GoodState(t) && Evolves(s, t)
  {
    hide GoodState, Evolves, Issue, Revoke;
    if exists revision, reference, authorization, clock :: RevokeStores(s, t, revision, reference, authorization, clock) {
      var revision, reference, authorization, clock :| RevokeStores(s, t, revision, reference, authorization, clock);
      RevokeKeeps(s, revision, reference, authorization, clock);
    } else {
      var revision, workspaceId, registry, r, parent, operation, authorization, clock, drawn :|
        IssueStores(s, t, revision, workspaceId, registry, r, parent, operation, authorization, clock, drawn);
      IssueKeeps(s, revision, workspaceId, registry, r, parent, operation, authorization, clock, drawn);
    }
  }

  /** The states a store goes through, from its initial one. */
  ghost predicate History(states: seq<GrantState>, reference: string, core: GrantCore) {
    && states != [] && states[0] == InitialState(reference, core)
    && forall i :: 0 <= i < |states| - 1 ==> Stores(states[i], states[i + 1])
  }

  /** In every reachable store digests and references are unique, parents precede children, and every answer names a grant. */
  lemma {:induction false} ReachableStoreIsGood(states: seq<GrantState>, reference: string, core: GrantCore, i: nat)
    requires History(states, reference, core) && i < |states|
    ensures GoodState(states[i])
  {
    hide Stores;
    if i > 0 {
      ReachableStoreIsGood(states, reference, core, i - 1);
      hide GoodState;
      StoresKeeps(states[i - 1], states[i]);
    }
  }

  lemma {:induction false} HistoryEvolves(states: seq<GrantState>, reference: string, core: GrantCore, i: nat, j: nat)
    requires History(states, reference, core) && i <= j < |states|
    ensures Evolves(states[i], states[j])
    decreases j
  {
    hide Stores;
    if i < j {
      HistoryEvolves(states, reference, core, i, j - 1);
      ReachableStoreIsGood(states, reference, core, j - 1);
      hide GoodState, Evolves;
      StoresKeeps(states[j - 1], states[j]);
      EvolvesTransitive(states[i], states[j - 1], states[j]);
    }
  }

  /** Activity only fades: what is active later, in a later state, was active before. */
  lemma {:induction false} ActivityFades(s: GrantState, t: GrantState, i: nat, now: int, later: int)
    requires GoodState(s) && GoodState(t) && Evolves(s, t) && i < |s.grants| && now <= later
    requires Active(t.grants, i, later)
    ensures Active(s.grants, i, now)
    decreases i
  {
    assert Ages(s.grants[i], t.grants[i]);
    if s.grants[i].parent.Some? {
      var d := s.grants[i].parent.value;
      FindLater(s.grants, t.grants, d);
      ActivityFades(s, t, Find(s.grants, d).value, now, later);
    }
  }

  /** In every history, a grant that is inactive stays inactive in all later states at all later times. */
  lemma InactiveForGood(states: seq<GrantState>, reference: string, core: GrantCore, i: nat, j: nat, k: nat, now: int, later: int)
    requires History(states, reference, core) && i <= j < |states| && k < |states[i].grants| && now <= later
    ensures GoodState(states[i]) && GoodState(states[j]) && k < |states[j].grants|
    ensures !Active(states[i].grants, k, now) ==> !Active(states[j].grants, k, later)
  {
    hide Stores;
    ReachableStoreIsGood(states, reference, core, i);
    ReachableStoreIsGood(states, reference, core, j);
    HistoryEvolves(states, reference, core, i, j);
    if Active(states[j].grants, k, later) {
      ActivityFades(states[i], states[j], k, now, later);
    }
  }

  /** Revoking a grant deactivates it and all its descendants, in every later state and at every time. */
  lemma RevocationCascades(states: seq<GrantState>, reference: string, core: GrantCore, i: nat, j: nat, k: nat, descendant: nat, now: int)
    requires History(states, reference, core) && i <= j < |states|
    requires k < |states[i].grants| && states[i].grants[k].revoked
    requires descendant < |states[j].grants| && Ancestor(states[j].grants, descendant, k)
    ensures GoodState(states[j]) && !Active(states[j].grants, descendant, now)
  {
    hide Stores;
    ReachableStoreIsGood(states, reference, core, j);
    HistoryEvolves(states, reference, core, i, j);
    assert Ages(states[i].grants[k], states[j].grants[k]);
    ActiveMeansAllAncestorsLive(states[j].grants, descendant, now);
  }

  /**
   * Issuing again with the same operation id and request digest, whenever the issuance is still on
   * record, gives the reference and time of the first answer and stores nothing.
   */
  lemma ReissueIsIdempotent(s: GrantState, t: GrantState, revision: nat, workspaceId: string, registry: set<string>,
                            r: Request, parent: Option<GrantDigest>, operation: Operation, authorization: Option<Observation>, clock: Timestamp, drawn: string,
                            laterRevision: nat, r2: Request, parent2: Option<GrantDigest>, authorization2: Option<Observation>, clock2: Timestamp, drawn2: string)
    requires GoodState(s) && GoodState(t) && ParsesState(t) && r2.core.workspaceId == workspaceId
    requires MutationError(t, laterRevision, authorization2, clock2).None?
    requires forall g :: g in s.grants ==> g.reference != drawn
    requires var first := Issue(s, revision, workspaceId, registry, r, parent, Some(operation), authorization, clock, drawn);
             && first.IssueDone?
             && Evolves(if first.next.Some? then first.next.value else s, t)
    ensures var first := Issue(s, revision, workspaceId, registry, r, parent, Some(operation), authorization, clock, drawn).issued;
            var again := Issue(t, laterRevision, workspaceId, registry, r2, parent2, Some(operation), authorization2, clock2, drawn2);
            && again.IssueDone? && again.next.None?
            && again.issued.reference == first.reference && again.issued.core == first.core && again.issued.issuedAt == first.issuedAt
  {
    var first := Issue(s, revision, workspaceId, registry, r, parent, Some(operation), authorization, clock, drawn);
    var after := if first.next.Some? then first.next.value else s;
    IssueKeeps(s, revision, workspaceId, registry, r, parent, Some(operation), authorization, clock, drawn);
    IssueRecorded(s, revision, workspaceId, registry, r, parent, operation, authorization, clock, drawn);
    hide MutationError, RequestError, GoodState, Evolves, ParsesState, Issue, RecordedAs;
    RecordedStays(after, t, operation, first.issued);
    RecordedAnswers(t, laterRevision, workspaceId, registry, r2, parent2, operation, authorization2, clock2, drawn2, first.issued);
  }

  /** An answer on record: the issuance of the operation names a grant with this reference. */
  predicate RecordedAs(s: GrantState, operation: Operation, issued: Issued) {
    && operation.id != "" && operation.requestDigest != ""
    && operation.id in s.issuances
    && s.issuances[operation.id].requestDigest == operation.requestDigest
    && s.issuances[operation.id].issuedAt == issued.issuedAt
    && var i := Find(s.grants, s.issuances[operation.id].grantDigest);
       i.Some? && s.grants[i.value].reference == issued.reference && s.grants[i.value].core == issued.core
  }

  lemma IssueRecorded(s: GrantState, revision: nat, workspaceId: string, registry: set<string>, r: Request, parent: Option<GrantDigest>,
                      operation: Operation, authorization: Option<Observation>, clock: Timestamp, drawn: string)
    requires ParentsPrecede(s.grants)
    requires Issue(s, revision, workspaceId, registry, r, parent, Some(operation), authorization, clock, drawn).IssueDone?
    ensures var first := Issue(s, revision, workspaceId, registry, r, parent, Some(operation), authorization, clock, drawn);
            RecordedAs(if first.next.Some? then first.next.value else s, operation, first.issued)
  {
    hide MutationError, RequestError, ParsesState, ParentsPrecede;
    var longer, d := s.grants + [Grant(CoreOf(r), false, drawn, parent)], GrantDigest(CoreOf(r));
    FindLater(s.grants, longer, d);
    assert longer[|s.grants|].Digest() == d;
    assert Find(longer, d).Some? && (Find(s.grants, d).None? ==> Find(longer, d).value == |s.grants|);
    hide Find;
  }

  lemma RecordedStays(s: GrantState, t: GrantState, operation: Operation, issued: Issued)
    requires RecordedAs(s, operation, issued) && Evolves(s, t)
    ensures RecordedAs(t, operation, issued)
  {
    var d := s.issuances[operation.id].grantDigest;
    forall j | 0 <= j < |s.grants| ensures s.grants[j].Digest() == t.grants[j].Digest() {
      assert Ages(s.grants[j], t.grants[j]);
    }
    FindLater(s.grants, t.grants, d);
    assert Ages(s.grants[Find(s.grants, d).value], t.grants[Find(s.grants, d).value]);
  }

  lemma RecordedAnswers(t: GrantState, revision: nat, workspaceId: string, registry: set<string>, r: Request, parent: Option<GrantDigest>,
                        operation: Operation, authorization: Option<Observation>, clock: Timestamp, drawn: string, issued: Issued)
    requires ParentsPrecede(t.grants) && ParsesState(t) && r.core.workspaceId == workspaceId && RecordedAs(t, operation, issued)
    requires MutationError(t, revision, authorization, clock).None?
    ensures var again := Issue(t, revision, workspaceId, registry, r, parent, Some(operation), authorization, clock, drawn);
            && again.IssueDone? && again.next.None?
            && again.issued.reference == issued.reference && again.issued.core == issued.core && again.issued.issuedAt == issued.issuedAt
  {
    hide RequestError, ActiveDigest, ParsesState, ParentsPrecede;
    var again := Issue(t, revision, workspaceId, registry, r, parent, Some(operation), authorization, clock, drawn);
    assert again == Reissue(t, t.issuances[operation.id], operation);
  }

  // ----- A store that cannot be read again -----

  /** On a state that cannot be read back, every call is refused and nothing is stored. */
  lemma UnreadableRefuses(s: GrantState, revision: nat, workspaceId: string, registry: set<string>, r: Request, parent: Option<GrantDigest>,
                          operation: Option<Operation>, authorization: Option<Observation>, clock: Timestamp, drawn: string, reference: string)
    requires ParentsPrecede(s.grants) && !ParsesState(s)
    ensures var issue := Issue(s, revision, workspaceId, registry, r, parent, operation, authorization, clock, drawn);
            issue.IssueRefused? && (issue.error == StateInvalid <==> r.core.workspaceId == workspaceId)
    ensures Revoke(s, revision, reference, authorization, clock) == RevokeRefused(StateInvalid)
  {
  }

  lemma OnlyReadableStores(s: GrantState, t: GrantState)
    requires Stores(s, t)
    ensures ParsesState(s)
  {
    hide MutationError, RequestError, ParsesState;
  }

  /** A state that cannot be read back is the last of its history: the store never changes again. */
  lemma UnreadableIsLast(states: seq<GrantState>, reference: string, core: GrantCore, i: nat)
    requires History(states, reference, core) && i < |states| && !ParsesState(states[i])
    ensures i == |states| - 1
  {
    hide ParsesState, Stores;
    if i < |states| - 1 {
      OnlyReadableStores(states[i], states[i + 1]);
    }
  }

  /**
   * From the initial state, a first issuance with a named operation and a clock that cannot be read
   * is answered, and leaves a state that cannot be read back.
   */
  lemma UnreadableClockStored(reference: string, core: GrantCore, revision: nat, workspaceId: string, registry: set<string>, r: Request,
                              operation: Operation, clock: Timestamp, drawn: string) returns (states: seq<GrantState>)
    requires r.core.workspaceId == workspaceId && operation.id != "" && operation.requestDigest != "" && drawn != reference
    requires r.methods != [] && Elements(r.methods) <= registry && r.core.expiresAt.parsed.Some? && clock.parsed.None?
    ensures var outcome := Issue(InitialState(reference, core), revision, workspaceId, registry, r, None, Some(operation), None, clock, drawn);
            && outcome.IssueDone? && outcome.next.Some?
            && !ParsesState(outcome.next.value)
            && states == [InitialState(reference, core), outcome.next.value] && History(states, reference, core)
  {
    var s := InitialState(reference, core);
    IssueKeeps(s, revision, workspaceId, registry, r, None, Some(operation), None, clock, drawn);
    var outcome := Issue(s, revision, workspaceId, registry, r, None, Some(operation), None, clock, drawn);
    hide NextState;
    states := [s, outcome.next.value];
    assert IssueStores(s, states[1], revision, workspaceId, registry, r, None, Some(operation), None, clock, drawn);
    assert Stores(s, states[1]);
  }

  // ----- The store -----

  class GrantStore {
    const workspaceId: string
    const registry: set<string>
    var state: GrantState
    var revision: nat

    ghost predicate Valid()
      reads this
    {
      GoodState(state)
    }

    constructor (workspaceId: string, registry: set<string>, reference: string, core: GrantCore)
      ensures Valid() && state == InitialState(reference, core) && revision == 0
      ensures this.workspaceId == workspaceId && this.registry == registry
    {
      this.workspaceId := workspaceId;
      this.registry := registry;
      state := InitialState(reference, core);
      revision := 0;
    }

    /** `observe`: the grant if it is active, with the revision and state it was seen in. */
    method Observe(d: GrantDigest, clock: Timestamp) returns (r: Option<Observation>)
      requires Valid()
      ensures r == if ParsesState(state) && ActiveDigest(state, d, clock) then Some(Observation(d, revision, state)) else None
    {
      if !ParsesState(state) {
        return None;
      }
      var i := Find(state.grants, d);
      if i.None? {
        return None;
      }
      var active := ActiveInLineage(state.grants, i.value, clock);
      r := if active then Some(Observation(d, revision, state)) else None;
    }

    method AssertMutationAuthority(authorization: Option<Observation>, clock: Timestamp) returns (error: Option<GrantError>)
      requires Valid()
      ensures error == MutationError(state, revision, authorization, clock)
    {
      if authorization.None? {
        return None;
      }
      if authorization.value.revision != revision || authorization.value.state != state {
        return Some(ObservationConflict);
      }
      var i := Find(state.grants, authorization.value.issuer);
      if i.None? {
        return Some(GrantInvalid);
      }
      var active := ActiveInLineage(state.grants, i.value, clock);
      error := if active then None else Some(GrantInvalid);
    }

    method Replace(next: GrantState)
      requires GoodState(next)
      modifies this
      ensures Valid() && state == next && revision == old(revision) + 1
    {
      state := next;
      revision := revision + 1;
    }

    /** `issue`; the drawn reference is new, as random ids are. */
    method IssueGrant(r: Request, parent: Option<GrantDigest>, operation: Option<Operation>, authorization: Option<Observation>,
                      clock: Timestamp, drawn: string) returns (error: Option<GrantError>, issued: Option<Issued>)
      requires Valid() && forall g :: g in state.grants ==> g.reference != drawn
      modifies this
      ensures Valid()
      ensures var outcome := Issue(old(state), old(revision), workspaceId, registry, r, parent, operation, authorization, clock, drawn);
              && (error == if outcome.IssueRefused? then Some(outcome.error) else None)
              && (issued == if outcome.IssueDone? then Some(outcome.issued) else None)
              && (state == if outcome.IssueDone? && outcome.next.Some? then outcome.next.value else old(state))
              && (revision == if outcome.IssueDone? && outcome.next.Some? then old(revision) + 1 else old(revision))
    {
      hide Find, Live, Active, ParsesState;
      IssueKeeps(state, revision, workspaceId, registry, r, parent, operation, authorization, clock, drawn);
      hide GoodState, Evolves;
      error, issued := None, None;
      if r.core.workspaceId != workspaceId {
        return Some(CrossWorkspace), None;
      }
      if !ParsesState(state) {
        return Some(StateInvalid), None;
      }
      error := AssertMutationAuthority(authorization, clock);
      if error.Some? {
        return error, None;
      }
      if operation.Some? {
        if operation.value.id == "" || operation.value.requestDigest == "" {
          return Some(InvalidParams), None;
        }
        if operation.value.id in state.issuances {
          var prior := Reissue(state, state.issuances[operation.value.id], operation.value);
          if prior.IssueRefused? {
            return Some(prior.error), None;
          }
          return None, Some(prior.issued);
        }
      }
      error := CheckRequest(r, parent, clock);
      if error.Some? {
        return error, None;
      }
      var core := CoreOf(r);
      var existing := Find(state.grants, GrantDigest(core));
      var reference := if existing.Some? then state.grants[existing.value].reference else drawn;
      var grants := if existing.Some? then state.grants else state.grants + [Grant(core, false, drawn, parent)];
      var issuances := state.issuances;
      if operation.Some? {
        issuances := issuances[operation.value.id := Issuance(operation.value.requestDigest, GrantDigest(core), clock)];
      }
      if existing.None? || operation.Some? {
        Replace(GrantState(grants, issuances));
      }
      issued := Some(Issued(reference, core, false, clock));
    }

    method CheckRequest(r: Request, parent: Option<GrantDigest>, clock: Timestamp) returns (error: Option<GrantError>)
      requires Valid()
      ensures error == RequestError(state, r, parent, clock, registry)
    {
      if parent.Some? {
        var i := Find(state.grants, parent.value);
        if i.None? {
          return Some(GrantInvalid);
        }
        var active := ActiveInLineage(state.grants, i.value, clock);
        if !active {
          return Some(GrantInvalid);
        }
      }
      if r.methods == [] || !(Elements(r.methods) <= registry) {
        return Some(UnsupportedMethods);
      }
      var expires := r.core.expiresAt.parsed;
      if expires.None? || (clock.parsed.Some? && expires.value <= clock.parsed.value) {
        return Some(StaleExpiry);
      }
      var existing := Find(state.grants, GrantDigest(CoreOf(r)));
      if existing.Some? && (state.grants[existing.value].revoked || state.grants[existing.value].parent != parent) {
        return Some(GrantInvalid);
      }
      error := None;
    }

    /** `revoke`. */
    method RevokeGrant(reference: string, authorization: Option<Observation>, clock: Timestamp)
      returns (error: Option<GrantError>, done: bool)
      requires Valid()
      modifies this
      ensures Valid()
      ensures var outcome := Revoke(old(state), old(revision), reference, authorization, clock);
              && (error == if outcome.RevokeRefused? then Some(outcome.error) else None)
              && done == outcome.Revoked?
              && (state == if outcome.Revoked? then outcome.next else old(state))
              && (revision == if outcome.Revoked? then old(revision) + 1 else old(revision))
    {
      if !ParsesState(state) {
        return Some(StateInvalid), false;
      }
      error := AssertMutationAuthority(authorization, clock);
      if error.Some? {
        return error, false;
      }
      var i := FindReference(state.grants, reference);
      if i.None? || state.grants[i.value].revoked {
        return None, false;
      }
      RevokeKeeps(state, revision, reference, authorization, clock);
      Replace(state.(grants := WithRevoked(state.grants, i.value)));
      done := true;
    }
  }
}
