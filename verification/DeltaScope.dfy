/** When an accepted delta changes nothing outside its scope (packages/domain/src/delta.ts). */
module DeltaScope {
  import opened Wrappers
  import opened Canonical
  import opened Pointers
  import opened Delta
  import opened DeltaEngine
  import opened DeltaLaws

  predicate OutsideScope(scope: Scope, q: seq<string>) {
    forall r :: r in scope.roots ==> !Comparable(Tokens(r), q)
  }

  /** The operation inserts into an array or removes from one. */
  predicate MovesIn(doc: Json, op: Operation) {
    (op.Add? || op.Remove?) && MovesElements(doc, Tokens(op.path))
  }

  /** The operation inserts or removes at the end of its array. */
  predicate EndsArray(doc: Json, op: Operation)
    requires Step(doc, op).Done? && MovesIn(doc, op)
  {
    StepIsEdit(doc, op);
    AtTheEnd(doc, Tokens(op.path), EditOf(op))
  }

  /** The operation moves no elements, or has the whole array in the scope, or is at the end of the array. */
  predicate KeepsToScope(doc: Json, op: Operation, scope: Scope)
    requires Step(doc, op).Done?
  {
    MovesIn(doc, op) ==> Covered(scope.roots, Front(Tokens(op.path))) || EndsArray(doc, op)
  }

  /** Every operation, on the document it meets, keeps to the scope. */
  predicate AllKeepToScope(doc: Json, ops: seq<Operation>, scope: Scope)
    decreases ops
  {
    ops == [] ||
    (&& Step(doc, ops[0]).Done?
     && KeepsToScope(doc, ops[0], scope)
     && AllKeepToScope(Step(doc, ops[0]).value, ops[1..], scope))
  }

  lemma CoveredApart(scope: Scope, region: seq<string>, q: seq<string>)
    requires Covered(scope.roots, region) && OutsideScope(scope, q)
    ensures !Comparable(region, q)
  {
    var r :| r in scope.roots && ValidatePointer(r).Some? && ValidatePointer(r).value <= region;
    hide ValidatePointer;
    assert !Comparable(Tokens(r), q);
    assert region <= q ==> Tokens(r) <= q;
    if q <= region {
      PrefixesComparable(Tokens(r), q, region);
    }
  }

  /** One operation that keeps to the scope changes nothing outside it. */
  lemma OneConfined(doc: Json, op: Operation, scope: Scope, q: seq<string>)
    requires Step(doc, op).Done? && OutsideScope(scope, q) && ValidRoots(scope.roots)
    requires ScopeContains(scope, op.path) == Ok(true) && KeepsToScope(doc, op, scope)
    ensures ReadAt(Step(doc, op).value, q) == ReadAt(doc, q)
  {
    StepIsEdit(doc, op);
    RootsContainMeaning(scope.roots, Tokens(op.path));
    hide Step, ValidatePointer, Covered, OutsideScope, DeepClone, CanEditAt, Comparable, ReadAt, EditAt;
    if op.Test? {
    } else if MovesIn(doc, op) && EndsArray(doc, op) {
      CoveredApart(scope, Tokens(op.path), q);
      ArrayEditStaysAtTheEnd(doc, Tokens(op.path), EditOf(op));
    } else {
      CoveredApart(scope, RegionOf(doc, op), q);
      StepFrame(doc, op, q);
    }
  }

  lemma {:induction false} AllConfined(doc: Json, ops: seq<Operation>, scope: Scope, q: seq<string>)
    requires Steps(doc, ops).Done? && AllKeepToScope(doc, ops, scope) && OutsideScope(scope, q) && ValidRoots(scope.roots)
    requires forall op :: op in ops ==> ScopeContains(scope, op.path) == Ok(true)
    ensures ReadAt(Steps(doc, ops).value, q) == ReadAt(doc, q)
    decreases ops
  {
    hide Step, ScopeContains, OutsideScope, KeepsToScope, ReadAt, ValidRoots;
    if ops != [] {
      OneConfined(doc, ops[0], scope, q);
      assert forall op :: op in ops[1..] ==> op in ops;
      AllConfined(Step(doc, ops[0]).value, ops[1..], scope, q);
    }
  }

  /** At a path, the document says what the base says, up to the sign of zero. */
  predicate SameAt(base: Json, document: Json, q: seq<string>) {
    ReadAt(document, q) == if ReadAt(base, q).None? then None else Some(Normalize(ReadAt(base, q).value))
  }

  ghost predicate SameOutside(base: Json, document: Json, scope: Scope) {
    forall q :: OutsideScope(scope, q) ==> SameAt(base, document, q)
  }

  /**
   * An accepted delta changes nothing outside its scope if each of its insertions and removals in
   * arrays has the whole array in the scope or is at the end of the array.
   */
  lemma ScopeConfines(base: Json, ops: seq<Operation>, scope: Scope)
    requires DeltaOutcome(base, ops, scope).Accepted? && AllKeepToScope(DeepClone(base), ops, scope)
    ensures SameOutside(base, DeltaOutcome(base, ops, scope).document, scope)
  {
    AcceptedWhen(base, ops, scope);
    hide DeltaOutcome, ReadAt, DeepClone, ValidatePointer, ScopeContains, ValidRoots, OutsideScope, AllKeepToScope;
    forall q | OutsideScope(scope, q) ensures SameAt(base, DeltaOutcome(base, ops, scope).document, q) {
      AllConfined(DeepClone(base), ops, scope, q);
      ReadNormalized(base, q);
    }
  }

  // ----- When a delta leaves its scope -----

  /** The scope meets the array of the path only at the path, and below it. */
  predicate OnlyThere(scope: Scope, tokens: seq<string>)
    requires tokens != []
  {
    forall r :: r in scope.roots && Comparable(Tokens(r), Front(tokens)) ==> tokens <= Tokens(r)
  }

  /** A path beside an edit, where the edit may be felt, is outside such a scope. */
  lemma BesideIsOutside(scope: Scope, tokens: seq<string>, q: seq<string>)
    requires tokens != [] && OnlyThere(scope, tokens) && !Comparable(tokens, q) && Comparable(Front(tokens), q)
    ensures OutsideScope(scope, q)
  {
    hide Tokens;
    assert Front(tokens) <= tokens;
    forall r | r in scope.roots ensures !Comparable(Tokens(r), q) {
      if Comparable(Tokens(r), q) {
        assert Front(tokens) <= q;
        if Tokens(r) <= q {
          PrefixesComparable(Tokens(r), Front(tokens), q);
        }
        assert tokens <= Tokens(r);
        if q <= Tokens(r) {
          PrefixesComparable(tokens, q, Tokens(r));
        }
      }
    }
  }

  /** What an edit of an array changes beside its path is near its array. */
  lemma ChangeIsNear(v: Json, tokens: seq<string>, e: Edit, q: seq<string>)
    requires CanEditAt(v, tokens, e) && !e.Put? && MovesElements(v, tokens)
    requires ReadAt(EditAt(v, tokens, e), q) != ReadAt(v, q)
    ensures Comparable(Front(tokens), q)
  {
    hide EditAt, ReadAt, CanEditAt, Comparable;
    assert Region(v, tokens, e) == Front(tokens);
    if !Comparable(Front(tokens), q) {
      Frame(v, tokens, e, q);
    }
  }

  /** Every operation that moves elements, on the document it meets, is at the end of its array. */
  predicate AllAtTheEnd(doc: Json, ops: seq<Operation>)
    decreases ops
  {
    ops == [] ||
    (&& Step(doc, ops[0]).Done?
     && (MovesIn(doc, ops[0]) ==> EndsArray(doc, ops[0]))
     && AllAtTheEnd(Step(doc, ops[0]).value, ops[1..]))
  }

  /** The scope meets every array that gains or loses an element only at the path of the operation. */
  predicate MeetsOnlyPaths(doc: Json, ops: seq<Operation>, scope: Scope)
    decreases ops
  {
    ops == [] ||
    (&& Step(doc, ops[0]).Done?
     && (MovesIn(doc, ops[0]) ==> OnlyThere(scope, Tokens(ops[0].path)))
     && MeetsOnlyPaths(Step(doc, ops[0]).value, ops[1..], scope))
  }

  lemma {:induction false} EndsKeepToScope(doc: Json, ops: seq<Operation>, scope: Scope)
    requires AllAtTheEnd(doc, ops)
    ensures AllKeepToScope(doc, ops, scope)
    decreases ops
  {
    hide Step, MovesIn, EndsArray;
    if ops != [] {
      EndsKeepToScope(Step(doc, ops[0]).value, ops[1..], scope);
    }
  }

  /** A path in such a scope is itself a root. */
  lemma PathIsRoot(scope: Scope, tokens: seq<string>)
    requires tokens != [] && OnlyThere(scope, tokens) && Covered(scope.roots, tokens)
    ensures exists r :: r in scope.roots && Tokens(r) == tokens
  {
    var r :| r in scope.roots && ValidatePointer(r).Some? && ValidatePointer(r).value <= tokens;
    assert Tokens(r) <= tokens;
    hide ValidatePointer, Tokens;
    PrefixesComparable(Tokens(r), Front(tokens), tokens);
  }

  /** The arrays of two independent operations that meet the scope only at their paths are apart. */
  lemma ArraysApart(scope: Scope, a: seq<string>, b: seq<string>)
    requires a != [] && b != [] && !Comparable(a, b)
    requires OnlyThere(scope, a) && OnlyThere(scope, b) && Covered(scope.roots, a) && Covered(scope.roots, b)
    ensures !Comparable(Front(a), Front(b))
  {
    PathIsRoot(scope, a);
    PathIsRoot(scope, b);
    hide Tokens, Covered;
    var r :| r in scope.roots && Tokens(r) == a;
    var s :| s in scope.roots && Tokens(s) == b;
    var x, y := Front(a), Front(b);
    assert x <= a && y <= b;
    assert x <= y ==> x <= b;
    assert y <= x ==> y <= a;
  }

  lemma FrontApart(a: seq<string>, b: seq<string>, q: seq<string>)
    requires a != [] && b != [] && Front(a) <= q && !Comparable(b, q) && !Comparable(Front(a), Front(b))
    ensures !Comparable(Front(b), q)
  {
    assert q <= Front(b) ==> q <= b;
    if Front(b) <= q {
      PrefixesComparable(Front(b), Front(a), q);
    }
  }

  /** An independent operation leaves a path outside the scope, in the array of another operation, alone. */
  lemma OtherLeaves(doc: Json, op: Operation, scope: Scope, tokens: seq<string>, q: seq<string>)
    requires Step(doc, op).Done? && OutsideScope(scope, q) && ValidRoots(scope.roots) && ScopeContains(scope, op.path) == Ok(true)
    requires MovesIn(doc, op) ==> OnlyThere(scope, Tokens(op.path))
    requires tokens != [] && OnlyThere(scope, tokens) && Covered(scope.roots, tokens) && Front(tokens) <= q
    requires op.Test? || !Comparable(tokens, Tokens(op.path))
    ensures ReadAt(Step(doc, op).value, q) == ReadAt(doc, q)
  {
    StepIsEdit(doc, op);
    RootsContainMeaning(scope.roots, Tokens(op.path));
    hide Step, ValidatePointer, Covered, OutsideScope, DeepClone, CanEditAt, ReadAt, EditAt, OnlyThere, Tokens;
    if MovesIn(doc, op) {
      var p := Tokens(op.path);
      ArraysApart(scope, tokens, p);
      CoveredApart(scope, p, q);
      FrontApart(tokens, p, q);
      hide Comparable;
      StepFrame(doc, op, q);
    } else {
      OneConfined(doc, op, scope, q);
    }
  }

  lemma {:induction false} OthersLeave(doc: Json, ops: seq<Operation>, scope: Scope, tokens: seq<string>, q: seq<string>)
    requires Steps(doc, ops).Done? && MeetsOnlyPaths(doc, ops, scope) && OutsideScope(scope, q) && ValidRoots(scope.roots)
    requires tokens != [] && OnlyThere(scope, tokens) && Covered(scope.roots, tokens) && Front(tokens) <= q
    requires forall op :: op in ops ==> ScopeContains(scope, op.path) == Ok(true) && (op.Test? || !Comparable(tokens, Tokens(op.path)))
    ensures ReadAt(Steps(doc, ops).value, q) == ReadAt(doc, q)
    decreases ops
  {
    hide Step, ScopeContains, OutsideScope, MovesIn, OnlyThere, Covered, ReadAt, ValidRoots, Tokens, Comparable;
    if ops != [] {
      assert ops[0] in ops;
      OtherLeaves(doc, ops[0], scope, tokens, q);
      assert forall op :: op in ops[1..] ==> op in ops;
      OthersLeave(Step(doc, ops[0]).value, ops[1..], scope, tokens, q);
    }
  }

  /** An operation in the middle of its array changes a path beside its own, outside the scope. */
  lemma MiddleChanges(doc: Json, op: Operation, scope: Scope) returns (q: seq<string>)
    requires Step(doc, op).Done? && MovesIn(doc, op) && !EndsArray(doc, op) && OnlyThere(scope, Tokens(op.path))
    ensures Tokens(op.path) != [] && Front(Tokens(op.path)) <= q && OutsideScope(scope, q)
    ensures ReadAt(Step(doc, op).value, q) != ReadAt(doc, q)
  {
    var tokens := Tokens(op.path);
    StepIsEdit(doc, op);
    hide Step, EditAt, CanEditAt, ReadAt, OnlyThere, OutsideScope, Tokens;
    ArrayEditStaysAtTheEnd(doc, tokens, EditOf(op));
    q :| !Comparable(tokens, q) && ReadAt(EditAt(doc, tokens, EditOf(op)), q) != ReadAt(doc, q);
    ChangeIsNear(doc, tokens, EditOf(op), q);
    BesideIsOutside(scope, tokens, q);
    assert Front(tokens) <= tokens;
  }

  lemma {:induction false} SomeMiddleChanges(doc: Json, ops: seq<Operation>, scope: Scope) returns (q: seq<string>)
    requires Steps(doc, ops).Done? && MeetsOnlyPaths(doc, ops, scope) && ValidRoots(scope.roots) && !AllAtTheEnd(doc, ops)
    requires PathsInScope(ops, scope) && Independent(WritePaths(ops))
    ensures OutsideScope(scope, q) && ReadAt(Steps(doc, ops).value, q) != ReadAt(doc, q)
    decreases ops
  {
    hide Step, ValidatePointer, ScopeContains, OutsideScope, OnlyThere, Covered, ReadAt, ValidRoots, Tokens, Comparable, EndsArray, MovesElements;
    var op, rest := ops[0], ops[1..];
    assert op in ops && forall x :: x in rest ==> x in ops;
    WritesOfRest(ops);
    if MovesIn(doc, op) && !EndsArray(doc, op) {
      q := MiddleChanges(doc, op, scope);
      PathCovered(scope, op.path);
      OthersLeave(Step(doc, op).value, rest, scope, Tokens(op.path), q);
    } else {
      q := SomeMiddleChanges(Step(doc, op).value, rest, scope);
      OneConfined(doc, op, scope, q);
    }
  }

  lemma PathCovered(scope: Scope, path: string)
    requires ValidRoots(scope.roots) && ScopeContains(scope, path) == Ok(true)
    ensures Covered(scope.roots, Tokens(path))
  {
    RootsContainMeaning(scope.roots, Tokens(path));
    hide Covered;
  }

  /** The writes after the first operation are independent, and of it. */
  lemma WritesOfRest(ops: seq<Operation>)
    requires ops != [] && Independent(WritePaths(ops))
    ensures Independent(WritePaths(ops[1..]))
    ensures !ops[0].Test? ==> forall op :: op in ops[1..] && !op.Test? ==> !Comparable(Tokens(ops[0].path), Tokens(op.path))
  {
    hide Tokens, Comparable;
    var writes, rest := WritePaths(ops), WritePaths(ops[1..]);
    var n := if ops[0].Test? then 0 else 1;
    assert forall i :: 0 <= i < |rest| ==> rest[i] == writes[i + n];
    WritePathsAre(ops[1..]);
    if !ops[0].Test? {
      forall op | op in ops[1..] && !op.Test? ensures !Comparable(Tokens(ops[0].path), Tokens(op.path)) {
        assert op.path in rest;
        var i :| 0 <= i < |rest| && rest[i] == op.path;
        assert writes[0] == ops[0].path && writes[i + 1] == op.path;
      }
    }
  }

  /**
   * An accepted delta, whose scope meets each array that gains or loses an element only at the path
   * of the operation, changes nothing outside the scope if and only if all those operations are at
   * the end of their arrays.
   */
  lemma StaysInScopeAtTheEnd(base: Json, ops: seq<Operation>, scope: Scope)
    requires DeltaOutcome(base, ops, scope).Accepted? && MeetsOnlyPaths(DeepClone(base), ops, scope)
    ensures SameOutside(base, DeltaOutcome(base, ops, scope).document, scope) <==> AllAtTheEnd(DeepClone(base), ops)
  {
    var doc := DeepClone(base);
    AcceptedWhen(base, ops, scope);
    hide DeltaOutcome, Steps, DeepClone, ReadAt, ValidRoots, OutsideScope, AllAtTheEnd, MeetsOnlyPaths, PathsInScope, Independent;
    if AllAtTheEnd(doc, ops) {
      EndsKeepToScope(doc, ops, scope);
      ScopeConfines(base, ops, scope);
    } else {
      var q := SomeMiddleChanges(doc, ops, scope);
      ReadNormalized(base, q);
      CloneIsNormal(base);
      assert !SameAt(base, DeltaOutcome(base, ops, scope).document, q);
    }
  }

  lemma CloneIsNormal(v: Json)
    ensures DeepClone(v) == Normalize(v)
  {
  }

  lemma SingleStep(doc: Json, op: Operation)
    ensures Steps(doc, [op]) == Step(doc, op)
  {
    hide Step;
    if Step(doc, op).Done? {
      NoSteps(Step(doc, op).value);
    }
  }

  // ----- A delta that leaves its scope -----

  lemma FirstTokens()
    ensures ValidatePointer("/0") == Some(["0"])
    ensures IsIndex("0") && Index("0") == 0 && IsIndex("1") && Index("1") == 1
  {
    PointerRoundTrip("/0", ["0"]);
    EncodeIsEscape("0");
    assert Pointers.Escape("0") == "0";
    assert EncodeAll(["0"]) == ["0"];
    assert Text.Decimal(0) == "0" && Text.Decimal(1) == "1";
    IndexOfDecimal(0);
    IndexOfDecimal(1);
  }

  lemma ReadOne(v: Json, token: string)
    ensures ReadAt(v, [token]) == Child(v, token)
  {
    BelowToken(v, token, []);
    assert [token] + [] == [token];
  }

  /** The removal of the first of two elements. */
  lemma FirstRemoved(a: Json, b: Json)
    requires IsNormal(a) && IsNormal(b)
    ensures Normalize(Arr([a, b])) == Arr([a, b])
    ensures Step(Arr([a, b]), Remove("/0", JsonValueDigest(a))) == Done(Arr([b]))
  {
    FirstTokens();
    NormalArray([a, b]);
    ReadOne(Arr([a, b]), "0");
    hide ValidatePointer, IsIndex, Index, JsonValueDigest, ReadAt;
    assert EditAt(Arr([a, b]), ["0"], Drop) == Arr([b]) by {
      assert [a, b][..0] + [a, b][1..] == [b];
    }
  }

  lemma SecondLost(a: Json, b: Json)
    requires IsNormal(b)
    ensures ReadAt(Arr([a, b]), ["1"]) == Some(b) && ReadAt(Arr([b]), ["1"]) == None
    ensures !SameAt(Arr([a, b]), Arr([b]), ["1"])
  {
    FirstTokens();
    ReadOne(Arr([a, b]), "1");
    ReadOne(Arr([b]), "1");
    hide ReadAt, IsIndex, Index, ValidatePointer;
  }

  lemma FirstInScope(scope: Scope, op: Operation)
    requires scope.roots == ["/0"] && op.path == "/0" && !op.Test?
    ensures ValidRoots(scope.roots) && PathsInScope([op], scope) && Independent(WritePaths([op])) && OutsideScope(scope, ["1"])
  {
    FirstTokens();
    hide ValidatePointer;
    assert Tokens("/0") == ["0"];
    RootsContainMeaning(scope.roots, ["0"]);
    assert Covered(scope.roots, ["0"]) by { assert "/0" in scope.roots && ["0"] <= ["0"]; }
  }

  /** Removing the first of two elements, in the scope of that element alone, is accepted and moves the other. */
  lemma RemovalLeavesScope(a: Json, b: Json, workspaceId: string, runId: string, taskId: string)
    requires IsNormal(a) && IsNormal(b)
    ensures var (base, scope) := (Arr([a, b]), Scope(workspaceId, runId, taskId, ["/0"]));
            && DeltaOutcome(base, [Remove("/0", JsonValueDigest(a))], scope) == Accepted(Arr([b]), StateHash(Arr([b])))
            && OutsideScope(scope, ["1"]) && ReadAt(base, ["1"]) == Some(b) && ReadAt(Arr([b]), ["1"]) == None
            && !SameOutside(base, Arr([b]), scope)
  {
    var base, scope, op := Arr([a, b]), Scope(workspaceId, runId, taskId, ["/0"]), Remove("/0", JsonValueDigest(a));
    FirstInScope(scope, op);
    FirstRemoved(a, b);
    SecondLost(a, b);
    AcceptedWhen(base, [op], scope);
    SingleStep(base, op);
    NormalArray([b]);
    assert DeepClone(base) == base && Normalize(Arr([b])) == Arr([b]);
    hide ValidatePointer, ValidRoots, PathsInScope, Independent, WritePaths, OutsideScope, JsonValueDigest, StateHash;
    hide Steps, DeltaOutcome, ReadAt, SameAt, Step, Normalize, DeepClone, IsNormal;
  }
}
