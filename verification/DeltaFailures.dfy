/** What an accepted operation does, and why a delta fails (packages/domain/src/delta.ts). */
module DeltaFailures {
  import opened Wrappers
  import opened Lists
  import opened Canonical
  import opened Pointers
  import opened Delta
  import opened DeltaEngine
  import opened DeltaLaws

  // ----- One operation -----

  predicate AtRoot(op: Operation) {
    (op.Add? || op.Remove?) && Tokens(op.path) == []
  }

  /** The operation names its value, or its container, as it is in the document. */
  predicate Guarded(current: Option<Json>, expected: Hash) {
    current.Some? && JsonValueDigest(current.value) == expected
  }

  /** A container has room for a key: a new name in an object, or a position up to the end of an array. */
  predicate HasRoom(v: Json, key: string) {
    match v
    case Arr(items) => IsIndex(key) && Index(key) <= |items|
    case Obj(fields) => key !in fields
    case _ => false
  }

  /** An addition goes through exactly when its container is there, as the operation names it, and has room. */
  lemma AdditionIsExact(doc: Json, op: Operation)
    requires op.Add? && ValidatePointer(op.path).Some?
    ensures var tokens := Tokens(op.path);
            Step(doc, op).Done? <==>
            tokens != [] && Guarded(ReadAt(doc, Front(tokens)), op.expected) && HasRoom(ReadAt(doc, Front(tokens)).value, Last(tokens))
  {
    hide ReadAt, JsonValueDigest, EditAt, CanEditAt, DeepClone, ValidatePointer;
  }

  /**
   * An operation does what it says: a test changes nothing; after an addition or a replacement the
   * value is at the path; after a removal an object has no such member, and an array one element less.
   */
  lemma OperationTakesEffect(doc: Json, op: Operation)
    requires Step(doc, op).Done?
    ensures var (next, tokens) := (Step(doc, op).value, Tokens(op.path));
            && (op.Test? ==> next == doc)
            && (op.Add? || op.Replace? ==> ReadAt(next, tokens) == Some(Normalize(op.value)))
            && (op.Remove? ==>
                  && tokens != [] && ReadAt(doc, Front(tokens)).Some? && ReadAt(next, Front(tokens)).Some?
                  && (if ReadAt(doc, Front(tokens)).value.Arr?
                      then ReadAt(next, Front(tokens)).value.Arr?
                           && |ReadAt(next, Front(tokens)).value.items| == |ReadAt(doc, Front(tokens)).value.items| - 1
                      else ReadAt(next, tokens) == None))
  {
    StepIsEdit(doc, op);
    if op.Test? {
    } else if op.Replace? {
      hide Step, ValidatePointer, DeepClone, EditAt, CanEditAt, ReadAt;
      PutThere(doc, Tokens(op.path), Normalize(op.value));
    } else {
      var tokens := Tokens(op.path);
      assert tokens != [] by { hide ValidatePointer, ReadAt, EditAt, JsonValueDigest, ParentAt; }
      hide Step, ValidatePointer, DeepClone, EditAt, CanEditAt, ReadAt;
      ParentEdited(doc, tokens, EditOf(op));
    }
  }

  lemma {:induction false} PutThere(v: Json, tokens: seq<string>, w: Json)
    requires CanEditAt(v, tokens, Put(w))
    ensures ReadAt(EditAt(v, tokens, Put(w)), tokens) == Some(w)
  {
    if tokens != [] {
      var child := Child(v, tokens[0]).value;
      PutThere(child, tokens[1..], w);
      hide ReadAt, EditAt, CanEditAt;
      ChildReplaced(v, tokens, w, child);
    }
  }

  lemma ChildReplaced(v: Json, tokens: seq<string>, w: Json, child: Json)
    requires tokens != [] && CanEditAt(v, tokens, Put(w)) && Child(v, tokens[0]) == Some(child)
    requires ReadAt(EditAt(child, tokens[1..], Put(w)), tokens[1..]) == Some(w)
    ensures ReadAt(EditAt(v, tokens, Put(w)), tokens) == Some(w)
  {
    ChildrenAfter(v, tokens[0], Put(EditAt(child, tokens[1..], Put(w))), tokens[0]);
  }

  /** What an insertion or a removal leaves in the container, and at the path. */
  lemma ParentEdited(v: Json, tokens: seq<string>, e: Edit)
    requires tokens != [] && !e.Put? && CanEditAt(v, tokens, e)
    ensures ReadAt(v, Front(tokens)).Some? && ReadAt(EditAt(v, tokens, e), Front(tokens)).Some?
    ensures e.Insert? ==> ReadAt(EditAt(v, tokens, e), tokens) == Some(e.value)
    ensures var (before, after) := (ReadAt(v, Front(tokens)).value, ReadAt(EditAt(v, tokens, e), Front(tokens)).value);
            e.Drop? ==> if before.Arr? then after.Arr? && |after.items| == |before.items| - 1 else ReadAt(EditAt(v, tokens, e), tokens) == None
  {
    EditInsideParent(v, tokens, e);
    var parent, key := ReadAt(v, Front(tokens)).value, Last(tokens);
    ReadInside(EditAt(v, tokens, e), Front(tokens), [key]);
    assert tokens == Front(tokens) + [key];
    assert ReadAt(EditHere(parent, key, e), [key]) == Child(EditHere(parent, key, e), key) by {
      BelowToken(EditHere(parent, key, e), key, []);
      assert [key] + [] == [key];
    }
  }

  // ----- Why one operation fails -----

  /** The reason of a failure, by what the operation meets in the document. */
  lemma WhyItFails(doc: Json, op: Operation)
    requires ValidatePointer(op.path).Some? && Step(doc, op).Failed?
    ensures var (reason, tokens) := (Step(doc, op).reason, Tokens(op.path));
            var current := ReadAt(doc, tokens);
            && (op.Test? ==> reason == TestFailed)
            && (op.Add? && tokens == [] ==> reason == RootAddForbidden)
            && (op.Remove? && tokens == [] ==> reason == RootRemoveForbidden)
            && (!op.Test? && !op.Add? && !AtRoot(op) ==> reason == if current.None? then PathMissing else ValueDigestMismatch)
            && (op.Add? && tokens != [] ==>
                  var parent := ReadAt(doc, Front(tokens));
                  && (reason == PathMissing <==> parent.None? || !IsContainer(parent.value))
                  && (reason == AddParentChanged <==> parent.Some? && IsContainer(parent.value) && !Guarded(parent, op.expected))
                  && (reason == ArrayIndexRange <==> Guarded(parent, op.expected) && parent.value.Arr?)
                  && (reason == AddTargetExists <==> Guarded(parent, op.expected) && parent.value.Obj?))
  {
    hide ReadAt, JsonValueDigest, EditAt, CanEditAt, DeepClone, ValidatePointer;
  }

  /** Failures that a newer base may cure: all but the two at the root. */
  predicate Curable(reason: Reason) {
    || reason == TestFailed || reason == AddParentChanged || reason == AddTargetExists
    || reason == PathMissing || reason == ValueDigestMismatch || reason == ArrayIndexRange
  }

  lemma CurableFailure(doc: Json, op: Operation)
    requires ValidatePointer(op.path).Some? && Step(doc, op).Failed?
    ensures Curable(Step(doc, op).reason) <==> !AtRoot(op)
    ensures AtRoot(op) ==> Step(doc, op).reason == RootAddForbidden || Step(doc, op).reason == RootRemoveForbidden
  {
    WhyItFails(doc, op);
    hide Step, ReadAt, JsonValueDigest, ValidatePointer;
  }

  // ----- Why a delta fails -----

  /** Operation `i` is the first that does not go through. */
  predicate FailsFirst(doc: Json, ops: seq<Operation>, i: int) {
    0 <= i < |ops| && Steps(doc, ops[..i]).Done? && Step(Steps(doc, ops[..i]).value, ops[i]).Failed?
  }

  lemma {:induction false} SomeFailsFirst(doc: Json, ops: seq<Operation>) returns (i: nat)
    requires Steps(doc, ops).Failed?
    ensures FailsFirst(doc, ops, i) && Steps(doc, ops) == Step(Steps(doc, ops[..i]).value, ops[i])
    decreases |ops|
  {
    hide Step;
    var n := |ops| - 1;
    var front := ops[..n];
    assert ops == front + [ops[n]];
    StepsConcat(doc, front, [ops[n]]);
    if Steps(doc, front).Failed? {
      i := SomeFailsFirst(doc, front);
      assert front[..i] == ops[..i];
    } else {
      i := n;
      StepsNext(doc, ops, n);
      assert ops[..n + 1] == ops;
    }
  }

  lemma OnlyOneFailsFirst(doc: Json, ops: seq<Operation>, i: int)
    requires FailsFirst(doc, ops, i)
    ensures Steps(doc, ops) == Step(Steps(doc, ops[..i]).value, ops[i])
  {
    hide Step;
    StepsNext(doc, ops, i);
  }

  /** The scope and the paths are in order. */
  predicate InOrder(ops: seq<Operation>, scope: Scope) {
    ValidRoots(scope.roots) && PathsInScope(ops, scope) && Independent(WritePaths(ops))
  }

  /** Neither path is a beginning of the other. */
  predicate Apart(p: seq<string>, q: seq<string>) {
    !(p <= q) && !(q <= p)
  }

  predicate AllApart(ops: seq<Operation>) {
    forall i, j :: 0 <= i < j < |ops| && !ops[i].Test? && !ops[j].Test? ==> Apart(Tokens(ops[i].path), Tokens(ops[j].path))
  }

  lemma {:induction false} WritesApart(ops: seq<Operation>)
    ensures Independent(WritePaths(ops)) <==> AllApart(ops)
  {
    if ops != [] {
      WritesApart(ops[1..]);
      OthersApart(ops);
      NextWrite(ops);
      hide WritePaths, Tokens, Independent, AllApart, Apart;
      if !ops[0].Test? {
        FirstApart(ops[0].path, WritePaths(ops[1..]));
        ApartFromAll(ops[0].path, ops[1..]);
      }
    }
  }

  lemma NextWrite(ops: seq<Operation>)
    requires ops != []
    ensures WritePaths(ops) == if ops[0].Test? then WritePaths(ops[1..]) else [ops[0].path] + WritePaths(ops[1..])
  {
  }

  lemma ApartFromAll(p: string, ops: seq<Operation>)
    ensures (forall w :: w in WritePaths(ops) ==> Apart(Tokens(p), Tokens(w))) <==> forall op :: op in ops && !op.Test? ==> Apart(Tokens(p), Tokens(op.path))
  {
    WritePathsAre(ops);
    hide WritePaths, Tokens, Apart;
    if forall w :: w in WritePaths(ops) ==> Apart(Tokens(p), Tokens(w)) {
      forall op | op in ops && !op.Test? ensures Apart(Tokens(p), Tokens(op.path)) {
        assert op.path in WritePaths(ops);
      }
    }
  }

  lemma FirstApart(p: string, writes: seq<string>)
    ensures Independent([p] + writes) <==> Independent(writes) && forall w :: w in writes ==> Apart(Tokens(p), Tokens(w))
  {
    hide Tokens;
    var all := [p] + writes;
    if Independent(all) {
      forall i, j | 0 <= i < j < |writes| ensures !Comparable(Tokens(writes[i]), Tokens(writes[j])) {
        assert all[i + 1] == writes[i] && all[j + 1] == writes[j];
      }
      forall w | w in writes ensures Apart(Tokens(p), Tokens(w)) {
        var j :| 0 <= j < |writes| && writes[j] == w;
        assert all[0] == p && all[j + 1] == w;
      }
    }
  }

  /** Whether all writes are apart, by the first operation and the others. */
  lemma OthersApart(ops: seq<Operation>)
    requires ops != []
    ensures AllApart(ops) <==>
            && (ops[0].Test? || forall op :: op in ops[1..] && !op.Test? ==> Apart(Tokens(ops[0].path), Tokens(op.path)))
            && AllApart(ops[1..])
  {
    hide Tokens, Apart;
    var rest := ops[1..];
    if AllApart(ops) {
      forall i, j | 0 <= i < j < |rest| && !rest[i].Test? && !rest[j].Test? ensures Apart(Tokens(rest[i].path), Tokens(rest[j].path)) {
        assert ops[i + 1] == rest[i] && ops[j + 1] == rest[j];
      }
    }
  }

  /**
   * The checks before the document is looked at, without the texts: all roots and paths are pointers,
   * each path is at or below a root, and no write is at, above or below another.
   */
  lemma InOrderMeans(ops: seq<Operation>, scope: Scope)
    ensures InOrder(ops, scope) <==>
            && (forall r :: r in scope.roots ==> ValidatePointer(r).Some?)
            && (forall op :: op in ops ==> ValidatePointer(op.path).Some? && exists r :: r in scope.roots && Tokens(r) <= Tokens(op.path))
            && AllApart(ops)
  {
    WritesApart(ops);
    hide Independent, WritePaths, AllApart;
    if ValidRoots(scope.roots) {
      forall op | op in ops && ValidatePointer(op.path).Some?
        ensures ScopeContains(scope, op.path) == Ok(true) <==> exists r :: r in scope.roots && Tokens(r) <= Tokens(op.path)
      {
        RootsContainMeaning(scope.roots, Tokens(op.path));
      }
    }
    hide ValidatePointer, ScopeContains, Tokens;
  }

  lemma OutcomeInOrder(base: Json, ops: seq<Operation>, scope: Scope)
    requires InOrder(ops, scope)
    ensures DeltaOutcome(base, ops, scope)
         == match Steps(DeepClone(base), ops)
            case Failed(reason) => if Curable(reason) then Conflicted(reason) else Rejected(reason)
            case Done(document) =>
              if Normalize(document) == Normalize(base) then Rejected(FinalDocumentUnchanged) else Accepted(document, StateHash(document))
  {
    PathsInOrder(ops, scope);
    hide ValidRoots, PathsInScope, Steps, PathFault, JsonValueDigest, StateHash, Independent, SomeOverlap, Distinct, WritePaths, DeepClone, Normalize;
    if Steps(DeepClone(base), ops).Done? {
      JsonValueDigestInjective(Steps(DeepClone(base), ops).value, base);
    }
  }

  /** With bad roots or paths, or dependent writes, the outcome is a rejection that does not depend on the base. */
  lemma RejectedOnEveryBase(ops: seq<Operation>, scope: Scope, base: Json, other: Json)
    requires !InOrder(ops, scope)
    ensures DeltaOutcome(base, ops, scope).Rejected? && DeltaOutcome(other, ops, scope) == DeltaOutcome(base, ops, scope)
    ensures var reason := DeltaOutcome(base, ops, scope).reason;
            if !ValidRoots(scope.roots) then reason == InvalidPointer
            else if !PathsInScope(ops, scope) then
              exists i :: FirstBad(ops, scope, i) && reason == if ValidatePointer(ops[i].path).None? then InvalidPointer else ScopeEscape
            else reason == (if Distinct(WritePaths(ops)) then OverlappingWriteTarget else DuplicateWriteTarget)
  {
    PathsInOrder(ops, scope);
    FaultIsOfAPath(ops, scope);
    NoPathFault(ops, scope);
    hide ValidRoots, Steps, PathFault, JsonValueDigest, StateHash, Independent, SomeOverlap, Distinct;
    hide WritePaths, DeepClone, ValidatePointer, ScopeContains;
  }

  /** The fault among the paths is that of the first bad one: invalid, or else outside the scope. */
  lemma {:induction false} FaultIsOfAPath(ops: seq<Operation>, scope: Scope)
    ensures PathFault(ops, scope).Some? ==>
              exists i :: FirstBad(ops, scope, i)
                && PathFault(ops, scope).value == if ValidatePointer(ops[i].path).None? then InvalidPointer else ScopeEscape
  {
    hide ValidatePointer, ScopeContains;
    if ops != [] && PathFault(ops, scope).Some? {
      if GoodPath(ops[0].path, scope) {
        FaultIsOfAPath(ops[1..], scope);
        var i :| FirstBad(ops[1..], scope, i)
          && PathFault(ops[1..], scope).value == if ValidatePointer(ops[1..][i].path).None? then InvalidPointer else ScopeEscape;
        assert forall j :: 0 < j <= i + 1 ==> ops[j] == ops[1..][j - 1];
        assert FirstBad(ops, scope, i + 1);
      } else {
        assert FirstBad(ops, scope, 0);
      }
    }
  }

  predicate GoodPath(path: string, scope: Scope) {
    ValidatePointer(path).Some? && ScopeContains(scope, path) == Ok(true)
  }

  predicate FirstBad(ops: seq<Operation>, scope: Scope, i: int) {
    0 <= i < |ops| && !GoodPath(ops[i].path, scope) && forall j :: 0 <= j < i ==> GoodPath(ops[j].path, scope)
  }

  /**
   * A delta conflicts exactly when the roots and paths are valid and in scope, the writes are
   * independent, and the first operation that does not go through is not an addition or removal of
   * the root: it fails because of what it meets in the document, and that is the reason given.
   */
  lemma ConflictedExactly(base: Json, ops: seq<Operation>, scope: Scope)
    ensures DeltaOutcome(base, ops, scope).Conflicted? <==>
            && ValidRoots(scope.roots) && PathsInScope(ops, scope) && Independent(WritePaths(ops))
            && exists i :: FailsFirst(DeepClone(base), ops, i) && !AtRoot(ops[i])
    ensures forall i :: InOrder(ops, scope) && FailsFirst(DeepClone(base), ops, i) ==>
              var reason := Step(Steps(DeepClone(base), ops[..i]).value, ops[i]).reason;
              DeltaOutcome(base, ops, scope) == if AtRoot(ops[i]) then Rejected(reason) else Conflicted(reason)
  {
    hide DeltaOutcome, ValidRoots, PathsInScope, Independent, WritePaths, Steps, Step, DeepClone, AtRoot, Curable;
    if InOrder(ops, scope) {
      OutcomeInOrder(base, ops, scope);
      forall i | FailsFirst(DeepClone(base), ops, i)
        ensures Steps(DeepClone(base), ops) == Step(Steps(DeepClone(base), ops[..i]).value, ops[i])
        ensures Curable(Step(Steps(DeepClone(base), ops[..i]).value, ops[i]).reason) <==> !AtRoot(ops[i])
      {
        OnlyOneFailsFirst(DeepClone(base), ops, i);
        PathOf(ops, scope, i);
        CurableFailure(Steps(DeepClone(base), ops[..i]).value, ops[i]);
      }
      if Steps(DeepClone(base), ops).Failed? {
        var i := SomeFailsFirst(DeepClone(base), ops);
      }
    } else {
      RejectedOnEveryBase(ops, scope, base, base);
    }
  }

  lemma PathOf(ops: seq<Operation>, scope: Scope, i: nat)
    requires PathsInScope(ops, scope) && i < |ops|
    ensures ValidatePointer(ops[i].path).Some?
  {
    hide ValidatePointer, ScopeContains;
    assert ops[i] in ops;
  }
}
