/** Task plans: parsing a planner's output and adopting a plan into the graph (packages/domain/src/execution.ts). */
module Plans {
  import opened Wrappers
  import opened Identity
  import opened Dependencies
  import opened Lists
  import opened Text

  datatype Plan = Plan(sourceTaskId: TaskId, sourceContractDigest: Digest, tasks: seq<PlanItem>, planDigest: Digest)

  datatype Adoption = Adoption(contracts: seq<Contract>, edges: seq<Edge>)

  // ----- Plan output -----

  predicate ValidItem(t: PlanItem) {
    && !IsBlank(t.key) && !IsBlank(t.title) && !IsBlank(t.instructions)
    && t.acceptanceCriteria != [] && (forall c :: c in t.acceptanceCriteria ==> !IsBlank(c))
    && (forall d :: d in t.dependsOn ==> !IsBlank(d))
    && |Elements(t.dependsOn)| == |t.dependsOn|
  }

  function Keys(items: seq<PlanItem>): set<string> {
    set t | t in items :: t.key
  }

  function Used(items: seq<PlanItem>): set<string> {
    set t, d | t in items && d in t.dependsOn :: d
  }

  /** The dependencies of one item, as pairs of source key and own key, in the order they are listed. */
  function ItemPairs(t: PlanItem): seq<(string, string)> {
    seq(|t.dependsOn|, i requires 0 <= i < |t.dependsOn| => (t.dependsOn[i], t.key))
  }

  function Pairs(items: seq<PlanItem>): seq<(string, string)> {
    if items == [] then [] else Pairs(items[..|items| - 1]) + ItemPairs(items[|items| - 1])
  }

  function EdgesFor(edge: (string, string) -> Edge, pairs: seq<(string, string)>): seq<Edge> {
    seq(|pairs|, i requires 0 <= i < |pairs| => edge(pairs[i].0, pairs[i].1))
  }

  function PlanEdges(edge: (string, string) -> Edge, items: seq<PlanItem>): seq<Edge> {
    EdgesFor(edge, Pairs(items))
  }

  function RequiresSuccessEdge(id: EdgeId, source: TaskId, dependent: TaskId): Edge {
    Edge(id, source, dependent, RequiresSuccess, None, "task-resolution", true)
  }

  function KeyEdge(source: string, key: string): Edge {
    RequiresSuccessEdge(EdgeNamed(source + ":" + key), Named(source), Named(key))
  }

  /** `source` is a dependency of the item `key`. */
  predicate DependsOn(items: seq<PlanItem>, source: string, key: string) {
    exists t :: t in items && t.key == key && source in t.dependsOn
  }

  lemma {:induction false} PairsMeaning(items: seq<PlanItem>)
    ensures forall d, k :: (d, k) in Pairs(items) <==> DependsOn(items, d, k)
  {
    if items != [] {
      var n := |items| - 1;
      var front, last := items[..n], items[n];
      PairsMeaning(front);
      assert items == front + [last];
      forall d, k ensures (d, k) in Pairs(items) <==> DependsOn(items, d, k) {
        if (d, k) in Pairs(items) {
          assert (d, k) in Pairs(front) || (d, k) in ItemPairs(last);
          assert last in items;
        }
        if DependsOn(items, d, k) {
          var t :| t in items && t.key == k && d in t.dependsOn;
          assert t in front ==> DependsOn(front, d, k);
          var i :| 0 <= i < |t.dependsOn| && t.dependsOn[i] == d;
          assert t == last ==> ItemPairs(last)[i] == (d, k);
        }
      }
    }
  }

  lemma PlanEdgesMeaning(edge: (string, string) -> Edge, items: seq<PlanItem>)
    ensures forall e :: e in PlanEdges(edge, items) <==> exists d, k :: DependsOn(items, d, k) && e == edge(d, k)
  {
    PairsMeaning(items);
    var ps, es := Pairs(items), PlanEdges(edge, items);
    forall e ensures e in es <==> exists d, k :: DependsOn(items, d, k) && e == edge(d, k) {
      if e in es {
        var i :| 0 <= i < |es| && es[i] == e;
        assert ps[i] == (ps[i].0, ps[i].1) && ps[i] in ps;
        assert DependsOn(items, ps[i].0, ps[i].1);
      }
      if d, k :| DependsOn(items, d, k) && e == edge(d, k) {
        assert (d, k) in ps;
        var i :| 0 <= i < |ps| && ps[i] == (d, k);
        assert es[i] == e;
      }
    }
  }

  lemma {:induction false} PairsDistinct(items: seq<PlanItem>)
    requires forall t :: t in items ==> |Elements(t.dependsOn)| == |t.dependsOn|
    requires forall i, j :: 0 <= i < j < |items| ==> items[i].key != items[j].key
    ensures Distinct(Pairs(items))
  {
    if items != [] {
      var n := |items| - 1;
      var front, last := items[..n], items[n];
      PairsDistinct(front);
      PairsMeaning(front);
      assert last in items;
      CountDistinct(last.dependsOn);
      forall p | p in Pairs(front) ensures p.1 != last.key {
        assert p == (p.0, p.1) && DependsOn(front, p.0, p.1);
        var t :| t in front && t.key == p.1 && p.0 in t.dependsOn;
        var m :| 0 <= m < |front| && front[m] == t;
        assert items[m] == t;
      }
    }
  }

  ghost predicate ValidItems(items: seq<PlanItem>) {
    && 1 <= |items| <= 32
    && (forall t :: t in items ==> ValidItem(t))
    && (forall i, j :: 0 <= i < j < |items| ==> items[i].key != items[j].key)
    && (forall d, k :: DependsOn(items, d, k) ==> d in Keys(items) && d != k)
  }

  /** No two dependencies are written as the same text `source:key`. */
  ghost predicate EdgeTextsDistinct(items: seq<PlanItem>) {
    forall i, j :: 0 <= i < j < |PlanEdges(KeyEdge, items)| ==>
      PlanEdges(KeyEdge, items)[i].edgeId != PlanEdges(KeyEdge, items)[j].edgeId
  }

  /** What `parseTaskPlanOutputV1` accepts. */
  ghost predicate ValidPlanOutput(items: seq<PlanItem>) {
    ValidItems(items) && EdgeTextsDistinct(items) && Acyclic(PlanEdges(KeyEdge, items))
  }

  /** `parseTaskPlanOutputV1`. */
  method ParseTaskPlanOutput(items: seq<PlanItem>) returns (r: Check)
    ensures r == if ValidPlanOutput(items) then Pass else Fail(PLAN_INVALID)
  {
    if |items| < 1 || |items| > 32 {
      return Fail(PLAN_INVALID);
    }
    var keys: seq<string> := [];
    var i := 0;
    while i < |items|
      invariant 0 <= i <= |items|
      invariant |keys| == i && forall k :: 0 <= k < i ==> keys[k] == items[k].key
      invariant forall k :: 0 <= k < i ==> ValidItem(items[k])
      invariant Distinct(keys)
    {
      var t := items[i];
      if !ValidItem(t) || t.key in keys {
        assert t in items;
        return Fail(PLAN_INVALID);
      }
      keys := keys + [t.key];
      i := i + 1;
    }
    assert forall k :: k in Keys(items) <==> k in keys by {
      forall k | k in keys ensures k in Keys(items) {
        var n :| 0 <= n < |keys| && keys[n] == k;
        assert items[n] in items;
      }
      forall k | k in Keys(items) ensures k in keys {
        var t :| t in items && t.key == k;
        var n :| 0 <= n < |items| && items[n] == t;
        assert keys[n] == k;
      }
    }
    var edges := DependencyEdges(items, keys);
    if edges.None? {
      return Fail(PLAN_INVALID);
    }
    var tasks := seq(|keys|, k requires 0 <= k < |keys| => Named(keys[k]));
    assert Distinct(tasks);
    KeyGraphWellFormed(items, Elements(tasks)) by {
      forall k | k in Keys(items) ensures Named(k) in tasks {
        var n :| 0 <= n < |keys| && keys[n] == k;
        assert tasks[n] == Named(k);
      }
    }
    var check := AssertAcyclic(tasks, edges.value);
    return if check.Pass? then Pass else Fail(PLAN_INVALID);
  }

  /** The edges of a plan's dependencies, unless one names an unknown key or its own. */
  method DependencyEdges(items: seq<PlanItem>, keys: seq<string>) returns (r: Option<seq<Edge>>)
    ensures r.Some? <==> forall d, k :: DependsOn(items, d, k) ==> d in keys && d != k
    ensures r.Some? ==> r.value == PlanEdges(KeyEdge, items)
  {
    var edges: seq<Edge> := [];
    var i := 0;
    while i < |items|
      invariant 0 <= i <= |items|
      invariant edges == EdgesFor(KeyEdge, Pairs(items[..i]))
      invariant forall k, d :: 0 <= k < i && d in items[k].dependsOn ==> d in keys && d != items[k].key
    {
      var t := items[i];
      assert items[..i + 1][..i] == items[..i];
      var j := 0;
      while j < |t.dependsOn|
        invariant 0 <= j <= |t.dependsOn|
        invariant edges == EdgesFor(KeyEdge, Pairs(items[..i]) + ItemPairs(t)[..j])
        invariant forall n :: 0 <= n < j ==> t.dependsOn[n] in keys && t.dependsOn[n] != t.key
      {
        var source := t.dependsOn[j];
        if source !in keys || source == t.key {
          assert DependsOn(items, source, t.key);
          return None;
        }
        edges := edges + [KeyEdge(source, t.key)];
        j := j + 1;
      }
      assert ItemPairs(t)[..j] == ItemPairs(t);
      forall d | d in t.dependsOn ensures d in keys && d != t.key {
        var n :| 0 <= n < |t.dependsOn| && t.dependsOn[n] == d;
      }
      i := i + 1;
    }
    assert items[..i] == items;
    return Some(edges);
  }

  lemma KeyGraphWellFormed(items: seq<PlanItem>, tasks: set<TaskId>)
    requires ValidItems(items)
    requires forall k :: k in Keys(items) ==> Named(k) in tasks
    ensures WellFormedGraph(tasks, PlanEdges(KeyEdge, items)) <==> EdgeTextsDistinct(items)
  {
    PlanEdgesMeaning(KeyEdge, items);
    forall e | e in PlanEdges(KeyEdge, items)
      ensures ValidEdge(e) && e.sourceTaskId in tasks && e.dependentTaskId in tasks
    {
      var d, k :| DependsOn(items, d, k) && e == KeyEdge(d, k);
      var t :| t in items && t.key == k && d in t.dependsOn;
      assert IsBlank("");
      assert |d + ":" + k| == |d| + 1 + |k|;
    }
  }

  // ----- Sealed plans -----

  /** `parseTaskPlanV1`: valid output under the digest of exactly this plan. */
  ghost predicate ParsedPlan(p: Plan) {
    ValidPlanOutput(p.tasks) && p.planDigest == PlanDigest(p.sourceTaskId, p.sourceContractDigest, p.tasks)
  }

  // ----- Adoption -----

  function Child(p: Plan, key: string): TaskId {
    PlanChild(p.planDigest, key)
  }

  function ChildContract(p: Plan, t: PlanItem): Contract {
    Contract(Child(p, t.key), t.title, t.instructions, t.acceptanceCriteria, Work, Some(p.sourceTaskId))
  }

  function DerivedEdge(p: Plan, source: TaskId, dependent: TaskId): Edge {
    RequiresSuccessEdge(PlanEdge(p.planDigest, source, dependent), source, dependent)
  }

  function ChildEdge(p: Plan): (string, string) -> Edge {
    (source, key) => DerivedEdge(p, Child(p, source), Child(p, key))
  }

  /** The edges that make the source task wait for every child no other child waits for. */
  function FinalEdges(p: Plan, items: seq<PlanItem>, used: set<string>): seq<Edge> {
    if items == [] then []
    else
      var last := items[|items| - 1];
      FinalEdges(p, items[..|items| - 1], used)
      + (if last.key in used then [] else [DerivedEdge(p, Child(p, last.key), p.sourceTaskId)])
  }

  function Adopted(p: Plan): Adoption {
    Adoption(
      seq(|p.tasks|, i requires 0 <= i < |p.tasks| => ChildContract(p, p.tasks[i])),
      PlanEdges(ChildEdge(p), p.tasks) + FinalEdges(p, p.tasks, Used(p.tasks)))
  }

  /** `derivePlanAdoptionV1` for a plan that parses. */
  method DerivePlanAdoption(p: Plan) returns (r: Result<Adoption>)
    ensures r == if ParsedPlan(p) then Ok(Adopted(p)) else Err(PLAN_INVALID)
  {
    var parsed := ParseTaskPlanOutput(p.tasks);
    if parsed.Fail? || p.planDigest != PlanDigest(p.sourceTaskId, p.sourceContractDigest, p.tasks) {
      return Err(PLAN_INVALID);
    }
    var contracts := seq(|p.tasks|, i requires 0 <= i < |p.tasks| => ChildContract(p, p.tasks[i]));
    var edges: seq<Edge> := [];
    var i := 0;
    while i < |p.tasks|
      invariant 0 <= i <= |p.tasks|
      invariant edges == EdgesFor(ChildEdge(p), Pairs(p.tasks[..i]))
    {
      var t := p.tasks[i];
      assert p.tasks[..i + 1][..i] == p.tasks[..i];
      var j := 0;
      while j < |t.dependsOn|
        invariant 0 <= j <= |t.dependsOn|
        invariant edges == EdgesFor(ChildEdge(p), Pairs(p.tasks[..i]) + ItemPairs(t)[..j])
      {
        edges := edges + [DerivedEdge(p, Child(p, t.dependsOn[j]), Child(p, t.key))];
        j := j + 1;
      }
      assert ItemPairs(t)[..j] == ItemPairs(t);
      i := i + 1;
    }
    assert p.tasks[..i] == p.tasks;
    var final := DeriveFinalEdges(p);
    return Ok(Adoption(contracts, edges + final));
  }

  /** The last loop of `derivePlanAdoptionV1`: an edge to the source task from each child that no other child needs. */
  method DeriveFinalEdges(p: Plan) returns (edges: seq<Edge>)
    ensures edges == FinalEdges(p, p.tasks, Used(p.tasks))
  {
    hide DerivedEdge, Child;
    edges := [];
    var used := Used(p.tasks);
    var i := 0;
    while i < |p.tasks|
      invariant 0 <= i <= |p.tasks|
      invariant edges == FinalEdges(p, p.tasks[..i], used)
    {
      assert p.tasks[..i + 1][..i] == p.tasks[..i];
      if p.tasks[i].key !in used {
        edges := edges + [DerivedEdge(p, Child(p, p.tasks[i].key), p.sourceTaskId)];
      }
      i := i + 1;
    }
    assert p.tasks[..i] == p.tasks;
  }

  function Children(p: Plan): set<TaskId> {
    set t | t in p.tasks :: Child(p, t.key)
  }

  lemma {:induction false} FinalEdgesMeaning(p: Plan, items: seq<PlanItem>, used: set<string>)
    ensures forall e :: e in FinalEdges(p, items, used) <==>
              exists t :: t in items && t.key !in used && e == DerivedEdge(p, Child(p, t.key), p.sourceTaskId)
  {
    if items != [] {
      var n := |items| - 1;
      FinalEdgesMeaning(p, items[..n], used);
      assert items == items[..n] + [items[n]];
    }
  }

  /** A derived edge comes from a dependency between two items, or leads from a child to the source task. */
  lemma DerivedEdgeIs(p: Plan, e: Edge)
    requires ParsedPlan(p) && e in Adopted(p).edges
    ensures e.sourceTaskId in Children(p) && (e.dependentTaskId in Children(p) || e.dependentTaskId == p.sourceTaskId)
    ensures e.dependentTaskId in Children(p) && e.dependentTaskId != p.sourceTaskId ==>
              Link(PlanEdges(KeyEdge, p.tasks), Named(e.sourceTaskId.key), Named(e.dependentTaskId.key))
  {
    PlanEdgesMeaning(ChildEdge(p), p.tasks);
    PlanEdgesMeaning(KeyEdge, p.tasks);
    FinalEdgesMeaning(p, p.tasks, Used(p.tasks));
    hide PlanEdges, FinalEdges;
    if e in PlanEdges(ChildEdge(p), p.tasks) {
      var d, k :| DependsOn(p.tasks, d, k) && e == ChildEdge(p)(d, k);
      assert d in Keys(p.tasks);
      var s :| s in p.tasks && s.key == d;
      assert KeyEdge(d, k) in PlanEdges(KeyEdge, p.tasks);
    }
  }

  /** Which links the derived edges make. */
  lemma AdoptedLinks(p: Plan)
    requires ParsedPlan(p)
    ensures forall e :: e in Adopted(p).edges ==>
              e.sourceTaskId in Children(p) && (e.dependentTaskId in Children(p) || e.dependentTaskId == p.sourceTaskId)
    ensures forall e :: e in Adopted(p).edges && e.dependentTaskId in Children(p) && e.dependentTaskId != p.sourceTaskId ==>
              Link(PlanEdges(KeyEdge, p.tasks), Named(e.sourceTaskId.key), Named(e.dependentTaskId.key))
    ensures forall d, k :: DependsOn(p.tasks, d, k) ==> Link(Adopted(p).edges, Child(p, d), Child(p, k))
    ensures forall t :: t in p.tasks && t.key !in Used(p.tasks) ==> Link(Adopted(p).edges, Child(p, t.key), p.sourceTaskId)
  {
    forall e | e in Adopted(p).edges
      ensures e.sourceTaskId in Children(p) && (e.dependentTaskId in Children(p) || e.dependentTaskId == p.sourceTaskId)
      ensures e.dependentTaskId in Children(p) && e.dependentTaskId != p.sourceTaskId ==>
              Link(PlanEdges(KeyEdge, p.tasks), Named(e.sourceTaskId.key), Named(e.dependentTaskId.key))
    {
      DerivedEdgeIs(p, e);
    }
    PlanEdgesMeaning(ChildEdge(p), p.tasks);
    FinalEdgesMeaning(p, p.tasks, Used(p.tasks));
    hide PlanEdges, FinalEdges, ParsedPlan, DependsOn, Used, Children;
    forall d, k | DependsOn(p.tasks, d, k) ensures Link(Adopted(p).edges, Child(p, d), Child(p, k)) {
      assert ChildEdge(p)(d, k) in Adopted(p).edges;
    }
    forall t | t in p.tasks && t.key !in Used(p.tasks) ensures Link(Adopted(p).edges, Child(p, t.key), p.sourceTaskId) {
      assert DerivedEdge(p, Child(p, t.key), p.sourceTaskId) in Adopted(p).edges;
    }
  }

  lemma AdoptedEnds(p: Plan)
    requires ParsedPlan(p)
    ensures forall e :: e in Adopted(p).edges ==> e.dependentTaskId in Children(p) || e.dependentTaskId == p.sourceTaskId
  {
    AdoptedLinks(p);
  }

  // ----- Adopting onto a graph -----

  /** The graph a plan is adopted onto, with none of the derived ids taken. */
  ghost predicate Adoptable(p: Plan, known: set<TaskId>, edges: seq<Edge>) {
    && ParsedPlan(p)
    && WellFormedGraph(known, edges) && Acyclic(edges)
    && p.sourceTaskId in known && p.sourceTaskId != Named("")
    && Children(p) !! known
    && forall e, f :: e in edges && f in Adopted(p).edges ==> e.edgeId != f.edgeId
  }

  /** Only children lead into children. */
  lemma ChildrenClosed(p: Plan, known: set<TaskId>, edges: seq<Edge>)
    requires Adoptable(p, known, edges)
    ensures ClosedUnderSources(edges + Adopted(p).edges, Children(p))
  {
    AdoptedLinks(p);
  }

  /** The plan's own keys along a path of children. */
  ghost function KeyPath(c: seq<TaskId>): seq<TaskId> {
    seq(|c|, k requires 0 <= k < |c| => var id: TaskId := c[k]; Named(if id.PlanChild? then id.key else ""))
  }

  lemma AdoptionAcyclic(p: Plan, known: set<TaskId>, edges: seq<Edge>)
    requires Adoptable(p, known, edges)
    ensures Acyclic(edges + Adopted(p).edges)
  {
    var all := edges + Adopted(p).edges;
    ChildrenClosed(p, known, edges);
    AdoptedLinks(p);
    assert forall e :: e in edges ==> e.dependentTaskId in known;
    forall c | IsCycle(all, c) ensures false {
      if i :| 0 <= i < |c| && c[i] in Children(p) {
        CycleOfChildren(PlanEdges(KeyEdge, p.tasks), all, Children(p), c, i);
      } else {
        CycleOutsideChildren(edges, all, Children(p), c);
      }
    }
  }

  lemma CycleOutsideChildren(edges: seq<Edge>, all: seq<Edge>, children: set<TaskId>, c: seq<TaskId>)
    requires forall e :: e in all && e.sourceTaskId !in children ==> e in edges
    requires IsCycle(all, c) && forall k :: 0 <= k < |c| ==> c[k] !in children
    ensures IsCycle(edges, c)
  {
    forall k | 0 <= k < |c| - 1 ensures Link(edges, c[k], c[k + 1]) {
      assert Link(all, c[k], c[k + 1]);
    }
  }

  lemma CycleOfChildren(keyEdges: seq<Edge>, all: seq<Edge>, children: set<TaskId>, c: seq<TaskId>, i: nat)
    requires ClosedUnderSources(all, children)
    requires forall e :: e in all && e.dependentTaskId in children ==>
               && e.sourceTaskId.PlanChild? && e.dependentTaskId.PlanChild?
               && Link(keyEdges, Named(e.sourceTaskId.key), Named(e.dependentTaskId.key))
    requires IsCycle(all, c) && i < |c| && c[i] in children
    ensures !Acyclic(keyEdges)
  {
    SubPathInside(all, c, 0, i, children);
    forall k | 0 <= k < |c| ensures c[k] in children {
      SubPathInside(all, c, k, |c| - 1, children);
    }
    var keys := KeyPath(c);
    forall k | 0 <= k < |c| - 1 ensures Link(keyEdges, keys[k], keys[k + 1]) {
      assert Link(all, c[k], c[k + 1]);
    }
    assert IsCycle(keyEdges, keys);
  }

  lemma SubPathInside(edges: seq<Edge>, c: seq<TaskId>, i: nat, j: nat, s: set<TaskId>)
    requires IsPath(edges, c) && i <= j < |c| && c[j] in s && ClosedUnderSources(edges, s)
    ensures c[i] in s
  {
    var q := c[i..j + 1];
    forall k | 0 <= k < |q| - 1 ensures Link(edges, q[k], q[k + 1]) {
      assert Link(edges, c[i + k], c[i + k + 1]);
    }
    PathStaysInside(edges, q, s);
  }

  lemma AdoptionWellFormed(p: Plan, known: set<TaskId>, edges: seq<Edge>)
    requires Adoptable(p, known, edges)
    ensures WellFormedGraph(known + Children(p), edges + Adopted(p).edges)
  {
    AdoptedLinks(p);
    DerivedIdsDistinct(p);
    var more := Adopted(p).edges;
    DerivedEdgesValid(p);
    var all := edges + more;
    forall i, j | 0 <= i < j < |all| ensures all[i].edgeId != all[j].edgeId {
      if i < |edges| <= j {
        assert all[i] in edges && all[j] in more;
      } else if |edges| <= i {
        assert all[i] == more[i - |edges|] && all[j] == more[j - |edges|];
      }
    }
  }

  lemma DerivedEdgesValid(p: Plan)
    requires ParsedPlan(p) && p.sourceTaskId !in Children(p) && p.sourceTaskId != Named("")
    ensures forall e :: e in Adopted(p).edges ==> ValidEdge(e)
  {
    PlanEdgesMeaning(ChildEdge(p), p.tasks);
    FinalEdgesMeaning(p, p.tasks, Used(p.tasks));
    forall e | e in PlanEdges(ChildEdge(p), p.tasks) ensures ValidEdge(e) {
      var d, k :| DependsOn(p.tasks, d, k) && e == ChildEdge(p)(d, k);
      assert d != k;
    }
    forall e | e in FinalEdges(p, p.tasks, Used(p.tasks)) ensures ValidEdge(e) {
      var t :| t in p.tasks && t.key !in Used(p.tasks) && e == DerivedEdge(p, Child(p, t.key), p.sourceTaskId);
      assert Child(p, t.key) in Children(p);
    }
  }

  lemma DerivedIdsDistinct(p: Plan)
    requires ParsedPlan(p) && p.sourceTaskId !in Children(p)
    ensures forall i, j :: 0 <= i < j < |Adopted(p).edges| ==> Adopted(p).edges[i].edgeId != Adopted(p).edges[j].edgeId
  {
    PairsDistinct(p.tasks);
    FinalIdsDistinct(p, p.tasks);
    PlanEdgesMeaning(ChildEdge(p), p.tasks);
    FinalEdgesMeaning(p, p.tasks, Used(p.tasks));
    var inner, final := PlanEdges(ChildEdge(p), p.tasks), FinalEdges(p, p.tasks, Used(p.tasks));
    var all := Adopted(p).edges;
    forall i, j | 0 <= i < j < |all| ensures all[i].edgeId != all[j].edgeId {
      if i < |inner| <= j {
        assert all[i] in inner && all[j] in final;
        var d, k :| DependsOn(p.tasks, d, k) && all[i] == ChildEdge(p)(d, k);
        var t :| t in p.tasks && t.key == k && d in t.dependsOn;
        assert Child(p, k) in Children(p);
      } else if j < |inner| {
        assert Pairs(p.tasks)[i] != Pairs(p.tasks)[j];
      } else {
        assert all[i] == final[i - |inner|] && all[j] == final[j - |inner|];
      }
    }
  }

  lemma {:induction false} FinalIdsDistinct(p: Plan, items: seq<PlanItem>)
    requires forall i, j :: 0 <= i < j < |items| ==> items[i].key != items[j].key
    ensures forall i, j :: 0 <= i < j < |FinalEdges(p, items, Used(p.tasks))| ==>
              FinalEdges(p, items, Used(p.tasks))[i].edgeId != FinalEdges(p, items, Used(p.tasks))[j].edgeId
  {
    if items != [] {
      var n := |items| - 1;
      var front, used := items[..n], Used(p.tasks);
      FinalIdsDistinct(p, front);
      FinalEdgesMeaning(p, front, used);
      var es := FinalEdges(p, front, used);
      forall i | 0 <= i < |es| ensures es[i].edgeId != PlanEdge(p.planDigest, Child(p, items[n].key), p.sourceTaskId) {
        assert es[i] in es;
        var t :| t in front && t.key !in used && es[i] == DerivedEdge(p, Child(p, t.key), p.sourceTaskId);
        var m :| 0 <= m < |front| && front[m] == t;
        assert items[m] == t;
      }
    }
  }

  // ----- Every child reaches the source task -----

  lemma AcyclicPathsAreDistinct(edges: seq<Edge>, p: seq<TaskId>)
    requires Acyclic(edges) && IsPath(edges, p)
    ensures Distinct(p)
  {
    forall i, j | 0 <= i < j < |p| ensures p[i] != p[j] {
      var q := p[i..j + 1];
      forall k | 0 <= k < |q| - 1 ensures Link(edges, q[k], q[k + 1]) {
        assert Link(edges, p[i + k], p[i + k + 1]);
      }
      assert !IsCycle(edges, q);
    }
  }

  /** Walking forward from a task of an acyclic set every walk leaves the set, here to `goal`. */
  lemma {:induction false} ForwardReaches(edges: seq<Edge>, tasks: set<TaskId>, goal: TaskId, q: seq<TaskId>)
    requires Acyclic(edges)
    requires forall c :: c in tasks ==> Link(edges, c, goal) || exists d :: d in tasks && Link(edges, c, d)
    requires IsPath(edges, q) && Elements(q) <= tasks
    ensures Reaches(edges, q[0], goal)
    decreases |tasks| - |q|
  {
    var last := q[|q| - 1];
    assert last in Elements(q);
    if Link(edges, last, goal) {
      PathAppends(edges, q, goal);
      assert Connects(edges, q + [goal], q[0], goal);
    } else {
      var d :| d in tasks && Link(edges, last, d);
      PathAppends(edges, q, d);
      var longer := q + [d];
      assert Elements(longer) == Elements(q) + {d};
      AcyclicPathsAreDistinct(edges, longer);
      DistinctCount(longer);
      SubsetCount(Elements(longer), tasks);
      ForwardReaches(edges, tasks, goal, longer);
    }
  }

  lemma ChildReachesSource(p: Plan, edges: seq<Edge>, c: TaskId)
    requires ParsedPlan(p) && Acyclic(edges) && c in Children(p)
    requires forall e :: e in Adopted(p).edges ==> e in edges
    ensures Reaches(edges, c, p.sourceTaskId)
  {
    AdoptedLinks(p);
    assert forall a, b :: Link(Adopted(p).edges, a, b) ==> Link(edges, a, b);
    forall c | c in Children(p)
      ensures Link(edges, c, p.sourceTaskId) || exists d :: d in Children(p) && Link(edges, c, d)
    {
      var t :| t in p.tasks && c == Child(p, t.key);
      if t.key in Used(p.tasks) {
        var u, d :| u in p.tasks && d in u.dependsOn && d == t.key;
        assert DependsOn(p.tasks, d, u.key);
        assert Child(p, u.key) in Children(p) && Link(Adopted(p).edges, Child(p, d), Child(p, u.key));
      }
    }
    assert Elements([c]) == {c};
    ForwardReaches(edges, Children(p), p.sourceTaskId, [c]);
  }

  lemma {:induction false} SubsetCount<T>(a: set<T>, b: set<T>)
    requires a <= b
    ensures |a| <= |b|
  {
    if a != {} {
      var x :| x in a;
      SubsetCount(a - {x}, b - {x});
    }
  }

  /** The edges with both ends in a set of tasks. */
  function EdgesWithin(edges: seq<Edge>, tasks: set<TaskId>): seq<Edge> {
    if edges == [] then []
    else
      var front := EdgesWithin(edges[..|edges| - 1], tasks);
      var last := edges[|edges| - 1];
      if last.sourceTaskId in tasks && last.dependentTaskId in tasks then front + [last] else front
  }

  lemma {:induction false} EdgesWithinAll(edges: seq<Edge>, more: seq<Edge>, tasks: set<TaskId>)
    requires forall e :: e in more ==> e.sourceTaskId in tasks && e.dependentTaskId in tasks
    ensures EdgesWithin(edges + more, tasks) == EdgesWithin(edges, tasks) + more
  {
    if more == [] {
      assert edges + more == edges;
    } else {
      var n := |more| - 1;
      EdgesWithinAll(edges, more[..n], tasks);
      assert (edges + more)[..|edges + more| - 1] == edges + more[..n];
      assert more == more[..n] + [more[n]];
    }
  }

  lemma {:induction false} EdgesWithinAgree(edges: seq<Edge>, s: set<TaskId>, t: set<TaskId>)
    requires forall e :: e in edges ==>
               (e.sourceTaskId in s && e.dependentTaskId in s <==> e.sourceTaskId in t && e.dependentTaskId in t)
    ensures EdgesWithin(edges, s) == EdgesWithin(edges, t)
  {
    if edges != [] {
      EdgesWithinAgree(edges[..|edges| - 1], s, t);
      assert edges[|edges| - 1] in edges;
    }
  }

  /**
   * Adopting a plan whose derived ids are free onto an acyclic graph gives an acyclic graph in which
   * every child reaches the source task; the closure of the source task grows by exactly the children
   * and the derived edges.
   */
  lemma PlanAdoption(p: Plan, known: set<TaskId>, edges: seq<Edge>)
    requires Adoptable(p, known, edges)
    ensures DependencyCheck(known + Children(p), edges + Adopted(p).edges) == Pass
    ensures forall c :: c in Children(p) ==> Reaches(edges + Adopted(p).edges, c, p.sourceTaskId)
    ensures Closure(edges + Adopted(p).edges, p.sourceTaskId) == Closure(edges, p.sourceTaskId) + Children(p)
    ensures EdgesWithin(edges + Adopted(p).edges, Closure(edges + Adopted(p).edges, p.sourceTaskId))
         == EdgesWithin(edges, Closure(edges, p.sourceTaskId)) + Adopted(p).edges
  {
    var more := Adopted(p).edges;
    var all, source := edges + more, p.sourceTaskId;
    AdoptionWellFormed(p, known, edges);
    AdoptionAcyclic(p, known, edges);
    AdoptedLinks(p);
    ClosureIsClosed(all, source);
    ClosureIsClosed(edges, source);
    forall c | c in Children(p)
      ensures Reaches(all, c, source) && c in Closure(all, source)
    {
      ChildReachesSource(p, all, c);
      var q :| Connects(all, q, c, source);
      PathStaysInside(all, q, Closure(all, source));
    }
    var grown := Closure(edges, source) + Children(p);
    ClosureWithinKnown(known, edges, source);
    ClosureIsLeast(all, source, grown);
    ClosureIsLeast(edges, source, Closure(all, source));
    assert Closure(all, source) == grown;
    EdgesWithinAll(edges, more, grown);
    EdgesWithinAgree(edges, grown, Closure(edges, source));
  }

  lemma ClosureWithinKnown(known: set<TaskId>, edges: seq<Edge>, target: TaskId)
    requires WellFormedGraph(known, edges) && target in known
    ensures Closure(edges, target) <= known
  {
    ClosureIsLeast(edges, target, known);
  }

  // ----- When a plan is accepted -----

  ghost predicate UnambiguousTexts(items: seq<PlanItem>) {
    forall s, k, s', k' :: DependsOn(items, s, k) && DependsOn(items, s', k') && s + ":" + k == s' + ":" + k' ==>
      s == s' && k == k'
  }

  /**
   * A valid acyclic dependency graph on keys is refused exactly when two different dependencies are
   * written as the same text.
   */
  lemma AcceptedExactly(items: seq<PlanItem>)
    requires ValidItems(items) && Acyclic(PlanEdges(KeyEdge, items))
    ensures ValidPlanOutput(items) <==> UnambiguousTexts(items)
  {
    PlanEdgesMeaning(KeyEdge, items);
    if EdgeTextsDistinct(items) {
      DistinctTextsUnambiguous(items);
    }
    if UnambiguousTexts(items) {
      UnambiguousTextsDistinct(items);
    }
  }

  lemma DistinctTextsUnambiguous(items: seq<PlanItem>)
    requires EdgeTextsDistinct(items)
    ensures UnambiguousTexts(items)
  {
    var es := PlanEdges(KeyEdge, items);
    PlanEdgesMeaning(KeyEdge, items);
    forall s, k, s', k' | DependsOn(items, s, k) && DependsOn(items, s', k') && s + ":" + k == s' + ":" + k'
      ensures s == s' && k == k'
    {
      assert KeyEdge(s, k) in es && KeyEdge(s', k') in es;
      var i :| 0 <= i < |es| && es[i] == KeyEdge(s, k);
      var j :| 0 <= j < |es| && es[j] == KeyEdge(s', k');
      assert i == j;
    }
  }

  lemma SameTextSamePair(items: seq<PlanItem>, s: string, k: string, s': string, k': string)
    requires UnambiguousTexts(items) && DependsOn(items, s, k) && DependsOn(items, s', k')
    ensures KeyEdge(s, k).edgeId == KeyEdge(s', k').edgeId ==> (s, k) == (s', k')
  {
    hide DependsOn;
  }

  lemma UnambiguousTextsDistinct(items: seq<PlanItem>)
    requires ValidItems(items) && UnambiguousTexts(items)
    ensures EdgeTextsDistinct(items)
  {
    var es, ps := PlanEdges(KeyEdge, items), Pairs(items);
    PairsMeaning(items);
    PairsDistinct(items);
    forall i, j | 0 <= i < j < |es| ensures es[i].edgeId != es[j].edgeId {
      assert ps[i] == (ps[i].0, ps[i].1) && ps[i] in ps;
      assert ps[j] == (ps[j].0, ps[j].1) && ps[j] in ps;
      assert DependsOn(items, ps[i].0, ps[i].1) && DependsOn(items, ps[j].0, ps[j].1);
      assert es[i] == KeyEdge(ps[i].0, ps[i].1) && es[j] == KeyEdge(ps[j].0, ps[j].1);
      assert ps[i] != ps[j];
      SameTextSamePair(items, ps[i].0, ps[i].1, ps[j].0, ps[j].1);
    }
  }

  /** Keys without a colon never collide. */
  lemma ColonFreeKeysUnambiguous(items: seq<PlanItem>)
    requires ValidItems(items) && forall t :: t in items ==> ':' !in t.key
    ensures UnambiguousTexts(items)
  {
    forall s, k, s', k' | DependsOn(items, s, k) && DependsOn(items, s', k') && s + ":" + k == s' + ":" + k'
      ensures s == s' && k == k'
    {
      assert ':' !in s && ':' !in s' by {
        assert s in Keys(items) && s' in Keys(items);
      }
      FirstColon(s, k, s', k');
    }
  }

  lemma {:induction false} FirstColon(s: string, k: string, s': string, k': string)
    requires s + ":" + k == s' + ":" + k' && ':' !in s && ':' !in s'
    ensures s == s' && k == k'
  {
    var t, t' := s + ":" + k, s' + ":" + k';
    assert t[0] == (if s == "" then ':' else s[0]) && t'[0] == (if s' == "" then ':' else s'[0]);
    assert t[1..] == (if s == "" then k else s[1..] + ":" + k);
    assert t'[1..] == (if s' == "" then k' else s'[1..] + ":" + k');
    if s != "" && s' != "" {
      FirstColon(s[1..], k, s'[1..], k');
    }
  }

  function Item(key: string, dependsOn: seq<string>): PlanItem {
    PlanItem(key, "t", "i", ["c"], dependsOn)
  }

  /** Two different dependencies of this plan read `a:b:c`. */
  function CollidingKeys(): seq<PlanItem> {
    [Item("a", []), Item("b:c", ["a"]), Item("a:b", []), Item("c", ["a:b"])]
  }

  lemma CollidingPairs()
    ensures Pairs(CollidingKeys()) == [("a", "b:c"), ("a:b", "c")]
  {
    var items := CollidingKeys();
    assert items[..3][..2] == items[..2] && items[..2][..1] == items[..1] && items[..1][..0] == [];
    assert Pairs(items[..1]) == Pairs([]) + ItemPairs(items[0]) == [];
    assert Pairs(items[..2]) == Pairs(items[..1]) + ItemPairs(items[1]) == [("a", "b:c")];
    assert Pairs(items[..3]) == Pairs(items[..2]) + ItemPairs(items[2]) == [("a", "b:c")];
  }

  lemma ItemValid(key: string, dependsOn: seq<string>)
    requires key != "" && !IsSpace(key[0])
    requires |dependsOn| <= 1 && (dependsOn != [] ==> dependsOn[0] != "" && !IsSpace(dependsOn[0][0]))
    ensures ValidItem(Item(key, dependsOn))
  {
    assert 't' in "t" && 'i' in "i" && 'c' in "c" && key[0] in key;
    assert Elements(dependsOn) == if dependsOn == [] then {} else {dependsOn[0]};
  }

  lemma CollidingDependencies(d: string, k: string)
    requires DependsOn(CollidingKeys(), d, k)
    ensures d in Keys(CollidingKeys()) && d != k
  {
    var items := CollidingKeys();
    CollidingPairs();
    PairsMeaning(items);
    assert (d, k) in Pairs(items);
    assert items[0] in items && items[0].key == "a";
    assert items[2] in items && items[2].key == "a:b";
  }

  lemma CollidingItemsValid()
    ensures ValidItems(CollidingKeys())
  {
    var items := CollidingKeys();
    forall t | t in items ensures ValidItem(t) {
      ItemValid("a", []);
      ItemValid("b:c", ["a"]);
      ItemValid("a:b", []);
      ItemValid("c", ["a:b"]);
    }
    forall d, k | DependsOn(items, d, k) ensures d in Keys(items) && d != k {
      CollidingDependencies(d, k);
    }
  }

  /** A valid acyclic plan that is refused for the text of its edge ids. */
  lemma CollidingKeysRefused()
    ensures ValidItems(CollidingKeys()) && Acyclic(PlanEdges(KeyEdge, CollidingKeys()))
    ensures !ValidPlanOutput(CollidingKeys())
  {
    CollidingItemsValid();
    CollidingPairs();
    var es := PlanEdges(KeyEdge, CollidingKeys());
    assert es == [KeyEdge("a", "b:c"), KeyEdge("a:b", "c")];
    var order := [Named("b:c"), Named("c"), Named("a"), Named("a:b")];
    forall i, b | 0 <= i < |order| && Link(es, order[i], b) ensures b in order[..i] {
      assert order[..2][0] == Named("b:c") && order[..3][1] == Named("c");
    }
    FinishOrderExcludesCycles(es, order);
    assert es[0].edgeId == es[1].edgeId;
  }
}
