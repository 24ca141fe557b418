/** The contracts and edges that are derived from a plan, one by one (packages/domain/src/execution.ts). */
module PlanDerivation {
  import opened Wrappers
  import opened Identity
  import opened Plans
  import opened Dependencies
  import opened Lists
  import opened Text

  /** The dependency of a task on another that must succeed: no other outcome will do, and cancellation is passed on. */
  predicate NeedsSuccess(e: Edge) {
    && e.edgeType == RequiresSuccess && e.allowedOutcomes == None
    && e.releasePredicate == "task-resolution" && e.propagateCancellation
  }

  /** The edge is from one child of the plan to another that depends on it. */
  predicate BetweenChildren(p: Plan, e: Edge) {
    exists t, d :: t in p.tasks && d in t.dependsOn && e.sourceTaskId == PlanChild(p.planDigest, d) && e.dependentTaskId == PlanChild(p.planDigest, t.key)
  }

  /** The edge is to the source task, from a child that no other child depends on. */
  predicate FromLastChild(p: Plan, e: Edge) {
    && e.dependentTaskId == p.sourceTaskId
    && exists t :: t in p.tasks && e.sourceTaskId == PlanChild(p.planDigest, t.key) && forall u :: u in p.tasks ==> t.key !in u.dependsOn
  }

  /** Each task of a plan gives a work contract with its texts, under an id of its own, for the source task. */
  lemma DerivedContracts(p: Plan)
    ensures |Adopted(p).contracts| == |p.tasks|
    ensures forall i :: 0 <= i < |p.tasks| ==>
              Adopted(p).contracts[i] == Contract(PlanChild(p.planDigest, p.tasks[i].key), p.tasks[i].title, p.tasks[i].instructions,
                                                  p.tasks[i].acceptanceCriteria, Work, Some(p.sourceTaskId))
  {
    hide PlanEdges, FinalEdges;
  }

  lemma NotUsed(p: Plan, key: string)
    ensures key !in Used(p.tasks) <==> forall u :: u in p.tasks ==> key !in u.dependsOn
  {
  }

  /**
   * Every derived edge needs success, has the id of its ends, and is between two children or from a
   * last child to the source task; and each such pair of tasks has its edge.
   */
  lemma DerivedEdges(p: Plan, e: Edge)
    ensures e in Adopted(p).edges <==>
            NeedsSuccess(e) && e.edgeId == PlanEdge(p.planDigest, e.sourceTaskId, e.dependentTaskId) && (BetweenChildren(p, e) || FromLastChild(p, e))
  {
    PlanEdgesMeaning(ChildEdge(p), p.tasks);
    FinalEdgesMeaning(p, p.tasks, Used(p.tasks));
    hide PlanEdges, FinalEdges;
    if e in PlanEdges(ChildEdge(p), p.tasks) {
      var d, k :| DependsOn(p.tasks, d, k) && e == ChildEdge(p)(d, k);
      var t :| t in p.tasks && t.key == k && d in t.dependsOn;
      assert BetweenChildren(p, e);
    }
    if e in FinalEdges(p, p.tasks, Used(p.tasks)) {
      var t :| t in p.tasks && t.key !in Used(p.tasks) && e == DerivedEdge(p, Child(p, t.key), p.sourceTaskId);
      NotUsed(p, t.key);
      assert FromLastChild(p, e);
    }
    if NeedsSuccess(e) && e.edgeId == PlanEdge(p.planDigest, e.sourceTaskId, e.dependentTaskId) {
      if BetweenChildren(p, e) {
        var t, d :| t in p.tasks && d in t.dependsOn && e.sourceTaskId == PlanChild(p.planDigest, d) && e.dependentTaskId == PlanChild(p.planDigest, t.key);
        assert DependsOn(p.tasks, d, t.key) && e == ChildEdge(p)(d, t.key);
      }
      if FromLastChild(p, e) {
        var t :| t in p.tasks && e.sourceTaskId == PlanChild(p.planDigest, t.key) && forall u :: u in p.tasks ==> t.key !in u.dependsOn;
        NotUsed(p, t.key);
        assert e == DerivedEdge(p, Child(p, t.key), p.sourceTaskId);
      }
    }
  }

  // ----- Plan output -----

  /** The texts of an item: a key, a title, instructions and criteria, none of them blank. */
  predicate ItemWritten(t: PlanItem) {
    !IsBlank(t.key) && !IsBlank(t.title) && !IsBlank(t.instructions) && t.acceptanceCriteria != []
    && forall c :: c in t.acceptanceCriteria ==> !IsBlank(c)
  }

  /** Each item depends on other items of the plan, on each at most once. */
  predicate DependsWithin(items: seq<PlanItem>) {
    forall t :: t in items ==> Distinct(t.dependsOn) && t.key !in t.dependsOn && forall d :: d in t.dependsOn ==> exists u :: u in items && u.key == d
  }

  lemma DependsMeans(items: seq<PlanItem>)
    requires forall t :: t in items ==> ItemWritten(t)
    ensures (forall t :: t in items ==> ValidItem(t)) && (forall d, k :: DependsOn(items, d, k) ==> d in Keys(items) && d != k)
       <==> DependsWithin(items)
  {
    forall t | t in items ensures ValidItem(t) <==> Distinct(t.dependsOn) && forall d :: d in t.dependsOn ==> !IsBlank(d) {
      assert ItemWritten(t);
      CountDistinct(t.dependsOn);
      if Distinct(t.dependsOn) {
        DistinctCount(t.dependsOn);
      }
    }
    hide ValidItem, Distinct;
    if DependsWithin(items) {
      forall t, d | t in items && d in t.dependsOn ensures !IsBlank(d) && d in Keys(items) {
        var u :| u in items && u.key == d;
        assert ItemWritten(u);
      }
    } else {
      var t :| t in items && !(Distinct(t.dependsOn) && t.key !in t.dependsOn && forall d :: d in t.dependsOn ==> exists u :: u in items && u.key == d);
      assert forall d :: d in t.dependsOn ==> DependsOn(items, d, t.key);
    }
  }

  /**
   * Plan output is accepted exactly when it has one to thirty-two items with their texts and different
   * keys, which depend on each other without a cycle, and no two dependencies have the same edge text.
   */
  lemma PlanOutputExactly(items: seq<PlanItem>)
    ensures ValidPlanOutput(items) <==>
            && 1 <= |items| <= 32 && (forall t :: t in items ==> ItemWritten(t))
            && (forall i, j :: 0 <= i < j < |items| ==> items[i].key != items[j].key)
            && DependsWithin(items) && Acyclic(PlanEdges(KeyEdge, items)) && UnambiguousTexts(items)
  {
    if forall t :: t in items ==> ItemWritten(t) {
      DependsMeans(items);
    } else {
      var t :| t in items && !ItemWritten(t);
      assert !ValidItem(t);
    }
    hide DependsWithin, Acyclic, UnambiguousTexts, EdgeTextsDistinct, ItemWritten, ValidItem, DependsOn;
    if ValidItems(items) && Acyclic(PlanEdges(KeyEdge, items)) {
      AcceptedExactly(items);
    }
  }
}
