/** When a delta is accepted, and what every accepted delta keeps: its frame and its order. */
module DeltaLaws {
  import opened Wrappers
  import opened Lists
  import opened Canonical
  import opened Pointers
  import opened Delta
  import opened DeltaEngine

  // ----- Canonical documents -----

  predicate IsNormal(v: Json) {
    Normalize(v) == v
  }

  lemma {:induction false} NormalizedItem(items: seq<Json>, i: nat)
    requires i < |items|
    ensures NormalizeAll(items)[i] == Normalize(items[i])
  {
    if i > 0 {
      NormalizedItem(items[1..], i - 1);
    }
  }

  lemma NormalArray(items: seq<Json>)
    ensures IsNormal(Arr(items)) <==> forall i :: 0 <= i < |items| ==> IsNormal(items[i])
  {
    forall i | 0 <= i < |items| ensures NormalizeAll(items)[i] == Normalize(items[i]) {
      NormalizedItem(items, i);
    }
    if forall i :: 0 <= i < |items| ==> IsNormal(items[i]) {
      assert NormalizeAll(items) == items;
    }
  }

  lemma NormalObject(fields: map<string, Json>)
    ensures IsNormal(Obj(fields)) <==> forall k :: k in fields ==> IsNormal(fields[k])
  {
    if forall k :: k in fields ==> IsNormal(fields[k]) {
      assert Normalize(Obj(fields)).fields == fields;
    }
  }

  lemma NormalChild(v: Json, token: string)
    requires IsNormal(v) && Child(v, token).Some?
    ensures IsNormal(Child(v, token).value)
  {
    if v.Arr? { NormalArray(v.items); } else { NormalObject(v.fields); }
  }

  lemma {:induction false} NormalPart(v: Json, tokens: seq<string>)
    requires IsNormal(v) && ReadAt(v, tokens).Some?
    ensures IsNormal(ReadAt(v, tokens).value)
  {
    hide IsNormal;
    if tokens != [] {
      NormalChild(v, tokens[0]);
      NormalPart(Child(v, tokens[0]).value, tokens[1..]);
    }
  }

  lemma NormalEditHere(v: Json, key: string, e: Edit)
    requires IsNormal(v) && CanEdit(v, key, e) && (!e.Drop? ==> IsNormal(e.value))
    ensures IsNormal(EditHere(v, key, e))
  {
    var w := EditHere(v, key, e);
    match v
    case Arr(items) =>
      NormalArray(items);
      NormalArray(w.items);
      hide IsNormal;
      forall i | 0 <= i < |w.items| ensures IsNormal(w.items[i]) {
        assert w.items[i] in items || (!e.Drop? && w.items[i] == e.value);
      }
    case Obj(fields) =>
      NormalObject(fields);
      NormalObject(w.fields);
  }

  lemma {:induction false} NormalEdit(v: Json, tokens: seq<string>, e: Edit)
    requires IsNormal(v) && CanEditAt(v, tokens, e) && (!e.Drop? ==> IsNormal(e.value))
    ensures IsNormal(EditAt(v, tokens, e))
  {
    hide IsNormal;
    if tokens == [] {
    } else if |tokens| == 1 && !e.Put? {
      NormalEditHere(v, tokens[0], e);
    } else {
      NormalChild(v, tokens[0]);
      NormalEdit(Child(v, tokens[0]).value, tokens[1..], e);
      NormalEditHere(v, tokens[0], Put(EditAt(Child(v, tokens[0]).value, tokens[1..], e)));
    }
  }

  lemma NormalEditOf(op: Operation)
    requires !op.Test? && !EditOf(op).Drop?
    ensures IsNormal(EditOf(op).value)
  {
    NormalizeIdempotent(op.value);
  }

  lemma NormalStep(doc: Json, op: Operation)
    requires IsNormal(doc) && Step(doc, op).Done?
    ensures IsNormal(Step(doc, op).value)
  {
    StepIsEdit(doc, op);
    if !op.Test? {
      if !EditOf(op).Drop? { NormalEditOf(op); }
      hide IsNormal, Step, EditOf, Tokens;
      NormalEdit(doc, Tokens(op.path), EditOf(op));
    }
  }

  lemma {:induction false} NormalSteps(doc: Json, ops: seq<Operation>)
    requires IsNormal(doc) && Steps(doc, ops).Done?
    ensures IsNormal(Steps(doc, ops).value)
    decreases ops
  {
    if ops != [] {
      hide Step, IsNormal;
      NormalStep(doc, ops[0]);
      NormalSteps(Step(doc, ops[0]).value, ops[1..]);
    }
  }

  // ----- Acceptance -----

  /** Every path is a valid pointer inside the scope. */
  predicate PathsInScope(ops: seq<Operation>, scope: Scope) {
    forall op :: op in ops ==> ValidatePointer(op.path).Some? && ScopeContains(scope, op.path) == Ok(true)
  }

  lemma PathsInOrder(ops: seq<Operation>, scope: Scope)
    ensures PathFault(ops, scope).None? && Distinct(WritePaths(ops)) && !SomeOverlap(WritePaths(ops))
       <==> PathsInScope(ops, scope) && Independent(WritePaths(ops))
  {
    NoPathFault(ops, scope);
    WritePathsAre(ops);
    hide ValidatePointer, ScopeContains, PathFault, Distinct, SomeOverlap, Independent;
    if PathFault(ops, scope).None? {
      WritesRefused(WritePaths(ops));
    }
  }

  lemma FailureIsFailure()
    ensures forall reason :: !Failure(reason).Accepted?
  {
  }

  /**
   * A delta is accepted exactly when its paths are in the scope, no write is at or above another,
   * every operation applies to the document it meets, and the document changes.
   */
  lemma AcceptedWhen(base: Json, ops: seq<Operation>, scope: Scope)
    ensures DeltaOutcome(base, ops, scope).Accepted? <==>
            && ValidRoots(scope.roots)
            && PathsInScope(ops, scope)
            && Independent(WritePaths(ops))
            && Steps(DeepClone(base), ops).Done?
            && Normalize(Steps(DeepClone(base), ops).value) != Normalize(base)
    ensures DeltaOutcome(base, ops, scope).Accepted? ==>
              var document := Steps(DeepClone(base), ops).value;
              DeltaOutcome(base, ops, scope) == Accepted(document, StateHash(document))
  {
    PathsInOrder(ops, scope);
    FailureIsFailure();
    hide Failure, ValidRoots, PathsInScope, Steps, PathFault, JsonValueDigest, StateHash, Independent, SomeOverlap, Distinct, WritePaths;
    hide DeepClone, Normalize;
    if Steps(DeepClone(base), ops).Done? {
      JsonValueDigestInjective(Steps(DeepClone(base), ops).value, base);
    }
  }

  /** An accepted document is canonical, is not the base, and is named by its state hash. */
  lemma AcceptedDocument(base: Json, ops: seq<Operation>, scope: Scope)
    requires DeltaOutcome(base, ops, scope).Accepted?
    ensures var document := DeltaOutcome(base, ops, scope).document;
            && IsNormal(document)
            && document != Normalize(base)
            && forall other :: StateHash(other) == DeltaOutcome(base, ops, scope).stateHash <==> Normalize(other) == document
  {
    AcceptedWhen(base, ops, scope);
    NormalizeIdempotent(base);
    NormalSteps(DeepClone(base), ops);
    hide DeltaOutcome, Steps, StateHash, Independent, PathsInScope, ValidRoots;
    var document := Steps(DeepClone(base), ops).value;
    forall other ensures StateHash(other) == StateHash(document) <==> Normalize(other) == Normalize(document) {
      StateHashNames(other, document);
    }
  }

  /** A guard that names a value lets the operation through exactly when that value, up to the sign of zero, is there. */
  lemma GuardIsExact(doc: Json, op: Operation, v: Json)
    requires !op.Add? && ValidatePointer(op.path).Some? && op.expected == JsonValueDigest(v)
    requires op.Remove? ==> Tokens(op.path) != []
    ensures Step(doc, op).Done? <==>
            ReadAt(doc, Tokens(op.path)).Some? && Normalize(ReadAt(doc, Tokens(op.path)).value) == Normalize(v)
  {
    var current := ReadAt(doc, Tokens(op.path));
    if current.Some? {
      JsonValueDigestInjective(current.value, v);
    }
    hide ReadAt, Normalize, DomainDigest, DeepClone, EditAt, CanEditAt, StepAdd;
  }

  // ----- The frame -----

  lemma {:induction false} ReadNormalized(v: Json, q: seq<string>)
    ensures ReadAt(Normalize(v), q) == if ReadAt(v, q).None? then None else Some(Normalize(ReadAt(v, q).value))
  {
    if q != [] {
      if v.Arr? && Child(v, q[0]).Some? {
        NormalizedItem(v.items, Index(q[0]));
      }
      if Child(v, q[0]).Some? {
        ReadNormalized(Child(v, q[0]).value, q[1..]);
      }
    }
  }

  function RegionOf(doc: Json, op: Operation): seq<string>
    requires Step(doc, op).Done? && !op.Test?
  {
    StepIsEdit(doc, op);
    Region(doc, Tokens(op.path), EditOf(op))
  }

  /** None of the operations, each in the document it meets, has a region comparable with the path. */
  predicate Untouched(doc: Json, ops: seq<Operation>, q: seq<string>)
    decreases ops
  {
    ops == [] ||
    (&& Step(doc, ops[0]).Done?
     && (ops[0].Test? || !Comparable(RegionOf(doc, ops[0]), q))
     && Untouched(Step(doc, ops[0]).value, ops[1..], q))
  }

  lemma StepFrame(doc: Json, op: Operation, q: seq<string>)
    requires Step(doc, op).Done? && (op.Test? || !Comparable(RegionOf(doc, op), q))
    ensures ReadAt(Step(doc, op).value, q) == ReadAt(doc, q)
  {
    StepIsEdit(doc, op);
    hide Step, EditOf, Tokens, Comparable;
    if !op.Test? {
      Frame(doc, Tokens(op.path), EditOf(op), q);
    }
  }

  lemma {:induction false} StepsFrame(doc: Json, ops: seq<Operation>, q: seq<string>)
    requires Steps(doc, ops).Done? && Untouched(doc, ops, q)
    ensures ReadAt(Steps(doc, ops).value, q) == ReadAt(doc, q)
    decreases ops
  {
    hide Step, ReadAt, RegionOf, Comparable;
    if ops != [] {
      StepFrame(doc, ops[0], q);
      StepsFrame(Step(doc, ops[0]).value, ops[1..], q);
    }
  }

  /**
   * An accepted delta changes nothing, up to the sign of zero, at any path that is incomparable
   * with the regions of its writes.
   */
  lemma DeltaFrame(base: Json, ops: seq<Operation>, scope: Scope, q: seq<string>)
    requires DeltaOutcome(base, ops, scope).Accepted?
    requires Untouched(DeepClone(base), ops, q)
    ensures ReadAt(DeltaOutcome(base, ops, scope).document, q)
         == if ReadAt(base, q).None? then None else Some(Normalize(ReadAt(base, q).value))
  {
    AcceptedWhen(base, ops, scope);
    hide DeltaOutcome, Untouched, Independent, PathsInScope, ValidRoots, StateHash;
    StepsFrame(DeepClone(base), ops, q);
    ReadNormalized(base, q);
  }

  // ----- The order of the operations -----

  predicate ObjectWrite(doc: Json, op: Operation) {
    op.Replace? || (op.Remove? && !MovesElements(doc, Tokens(op.path)))
  }

  /** Every operation replaces a value or removes a member of an object, whatever came before it. */
  predicate ObjectWrites(doc: Json, ops: seq<Operation>) {
    forall op :: op in ops ==> ObjectWrite(doc, op)
  }

  /** Operations at pairwise incomparable paths. */
  predicate Apart(ops: seq<Operation>) {
    forall i, j :: 0 <= i < |ops| && 0 <= j < |ops| && i != j ==> !Comparable(Tokens(ops[i].path), Tokens(ops[j].path))
  }

  /** Every operation can be applied to this very document. */
  predicate AllApply(doc: Json, ops: seq<Operation>) {
    forall op :: op in ops ==> Step(doc, op).Done?
  }

  lemma ObjectWriteInPlace(doc: Json, op: Operation)
    requires ObjectWrite(doc, op) && Step(doc, op).Done?
    ensures InPlace(doc, Tokens(op.path), EditOf(op)) && Step(doc, op).value == EditAt(doc, Tokens(op.path), EditOf(op))
  {
    StepIsEdit(doc, op);
  }

  /** After one operation, another at an incomparable path applies if and only if it did before. */
  lemma StillApplies(doc: Json, first: Operation, op: Operation)
    requires ObjectWrite(doc, first) && (op.Replace? || op.Remove?) && Step(doc, first).Done?
    requires !Comparable(Tokens(first.path), Tokens(op.path))
    ensures ObjectWrite(Step(doc, first).value, op) <==> ObjectWrite(doc, op)
    ensures Step(Step(doc, first).value, op).Done? <==> Step(doc, op).Done?
  {
    ObjectWriteInPlace(doc, first);
    var p, a, q := Tokens(first.path), EditOf(first), Tokens(op.path);
    InPlaceRegion(doc, p, a);
    KindKept(doc, p, a, q);
    Frame(doc, p, a, q);
    hide EditAt, CanEditAt, ReadAt, MovesElements, Tokens, Comparable, InPlace, DomainDigest;
    var next := Step(doc, first).value;
    hide StepAdd;
    SameReadSameStep(doc, next, op);
  }

  lemma SameReadSameStep(doc: Json, next: Json, op: Operation)
    requires (op.Replace? || op.Remove?) && ReadAt(doc, Tokens(op.path)) == ReadAt(next, Tokens(op.path))
    ensures Step(next, op).Done? <==> Step(doc, op).Done?
  {
    hide DomainDigest, EditAt, CanEditAt, ReadAt, StepAdd;
  }

  lemma StepsSwap(doc: Json, a: Operation, b: Operation)
    requires ObjectWrite(doc, a) && ObjectWrite(doc, b) && Step(doc, a).Done? && Step(doc, b).Done?
    requires !Comparable(Tokens(a.path), Tokens(b.path))
    ensures Step(Step(doc, a).value, b).Done? && Step(Step(doc, b).value, a).Done?
    ensures Step(Step(doc, a).value, b) == Step(Step(doc, b).value, a)
  {
    ObjectWriteInPlace(doc, a);
    ObjectWriteInPlace(doc, b);
    StillApplies(doc, a, b);
    StillApplies(doc, b, a);
    EditsCommute(doc, Tokens(a.path), EditOf(a), Tokens(b.path), EditOf(b));
    StepIsEdit(Step(doc, a).value, b);
    StepIsEdit(Step(doc, b).value, a);
    hide Step, EditAt, CanEditAt, InPlace, Tokens, EditOf, ObjectWrite;
  }

  /** After the first of the operations, the others are as they were. */
  lemma RestApplies(doc: Json, ops: seq<Operation>)
    requires ops != [] && ObjectWrites(doc, ops) && Apart(ops) && Step(doc, ops[0]).Done?
    ensures ObjectWrites(Step(doc, ops[0]).value, ops[1..]) && Apart(ops[1..])
    ensures AllApply(doc, ops) <==> AllApply(Step(doc, ops[0]).value, ops[1..])
  {
    hide Step, Tokens, Comparable;
    var next := Step(doc, ops[0]).value;
    forall i | 1 <= i < |ops|
      ensures ObjectWrite(next, ops[i]) && (Step(next, ops[i]).Done? <==> Step(doc, ops[i]).Done?)
    {
      assert ops[i] in ops && ops[0] in ops;
      StillApplies(doc, ops[0], ops[i]);
    }
    assert forall op :: op in ops <==> op == ops[0] || op in ops[1..];
  }

  /** A list of such operations succeeds exactly when each of them applies to the document it starts from. */
  lemma {:induction false} StepsAllApply(doc: Json, ops: seq<Operation>)
    requires ObjectWrites(doc, ops) && Apart(ops)
    ensures Steps(doc, ops).Done? <==> AllApply(doc, ops)
    decreases ops
  {
    hide Step, ObjectWrites, Apart;
    if ops != [] {
      assert ops[0] in ops;
      if Step(doc, ops[0]).Done? {
        RestApplies(doc, ops);
        StepsAllApply(Step(doc, ops[0]).value, ops[1..]);
      }
    }
  }

  function Without<T>(s: seq<T>, i: nat): seq<T>
    requires i < |s|
  {
    s[..i] + s[i + 1..]
  }

  lemma TwoSteps(doc: Json, a: Operation, b: Operation, rest: seq<Operation>)
    requires Step(doc, a).Done? && Step(Step(doc, a).value, b).Done?
    ensures Steps(doc, [a] + ([b] + rest)) == Steps(Step(Step(doc, a).value, b).value, rest)
  {
    hide Step;
    assert ([a] + ([b] + rest))[1..] == [b] + rest && ([b] + rest)[1..] == rest;
  }

  lemma ReorderedApart(ops: seq<Operation>, i: nat)
    requires i < |ops| && Apart(ops)
    ensures Apart([ops[i]] + Without(ops, i))
  {
    hide Tokens, Comparable;
    var moved := [ops[i]] + Without(ops, i);
    var from := (k: int) => if k == 0 then i else if k <= i then k - 1 else k;
    assert forall k :: 0 <= k < |moved| ==> 0 <= from(k) < |ops| && moved[k] == ops[from(k)];
  }

  lemma ReorderedWrites(doc: Json, ops: seq<Operation>, i: nat)
    requires i < |ops| && ObjectWrites(doc, ops) && AllApply(doc, ops)
    ensures ObjectWrites(doc, [ops[i]] + Without(ops, i)) && AllApply(doc, [ops[i]] + Without(ops, i))
  {
    hide ObjectWrite, Step;
    assert forall op :: op in [ops[i]] + Without(ops, i) ==> op in ops;
  }

  /** Any of the operations can be made the first. */
  lemma {:induction false} BringForward(doc: Json, ops: seq<Operation>, i: nat)
    requires i < |ops| && ObjectWrites(doc, ops) && Apart(ops) && AllApply(doc, ops)
    ensures Steps(doc, ops) == Steps(doc, [ops[i]] + Without(ops, i))
    decreases i
  {
    if i == 0 {
      assert [ops[0]] + Without(ops, 0) == ops;
    } else {
      var a, b, rest := ops[0], ops[i], Without(ops[1..], i - 1);
      hide Step, Steps, ObjectWrites, ObjectWrite, Apart, AllApply, Tokens, Comparable, Without;
      FirstApplies(doc, ops, i);
      RestApplies(doc, ops);
      BringForward(Step(doc, a).value, ops[1..], i - 1);
      StepsSwap(doc, a, b);
      TwoSteps(doc, a, b, rest);
      TwoSteps(doc, b, a, rest);
      WithoutTail(ops, i);
      OneStep(doc, a, ops[1..]);
      OneStep(doc, a, [b] + rest);
    }
  }

  lemma WithoutTail<T>(s: seq<T>, i: nat)
    requires 0 < i < |s|
    ensures [s[0]] + s[1..] == s && Without(s, i) == [s[0]] + Without(s[1..], i - 1) && s[1..][i - 1] == s[i]
  {
  }

  lemma OneStep(doc: Json, a: Operation, rest: seq<Operation>)
    requires Step(doc, a).Done?
    ensures Steps(doc, [a] + rest) == Steps(Step(doc, a).value, rest)
  {
    hide Step;
    assert ([a] + rest)[1..] == rest;
  }

  lemma FirstApplies(doc: Json, ops: seq<Operation>, i: nat)
    requires 0 < i < |ops| && ObjectWrites(doc, ops) && Apart(ops) && AllApply(doc, ops)
    ensures Step(doc, ops[0]).Done? && Step(doc, ops[i]).Done?
    ensures ObjectWrite(doc, ops[0]) && ObjectWrite(doc, ops[i]) && !Comparable(Tokens(ops[0].path), Tokens(ops[i].path))
  {
    hide Step, ObjectWrite, Tokens, Comparable;
    assert ops[0] in ops && ops[i] in ops;
  }

  lemma {:induction false} AnyOrder(doc: Json, a: seq<Operation>, b: seq<Operation>)
    requires ObjectWrites(doc, a) && Apart(a) && AllApply(doc, a) && multiset(a) == multiset(b)
    ensures Steps(doc, a) == Steps(doc, b)
    decreases b
  {
    if b == [] {
      assert |multiset(a)| == 0;
    } else {
      var i := Matching(a, b);
      var first, rest := b[0], Without(a, i);
      hide Step, Steps, ObjectWrites, Apart, AllApply, Without;
      BringForward(doc, a, i);
      ReorderedWrites(doc, a, i);
      ReorderedApart(a, i);
      var moved := [first] + rest;
      assert moved[1..] == rest && moved[0] == first;
      Applies(doc, moved);
      RestApplies(doc, moved);
      AnyOrder(Step(doc, first).value, rest, b[1..]);
      OneStep(doc, first, rest);
      OneStep(doc, first, b[1..]);
      assert b == [first] + b[1..];
    }
  }

  lemma Applies(doc: Json, ops: seq<Operation>)
    requires ops != [] && AllApply(doc, ops)
    ensures Step(doc, ops[0]).Done?
  {
    hide Step;
    assert ops[0] in ops;
  }

  lemma {:induction false} AllWrites(ops: seq<Operation>)
    requires forall op :: op in ops ==> !op.Test?
    ensures |WritePaths(ops)| == |ops| && forall i :: 0 <= i < |ops| ==> WritePaths(ops)[i] == ops[i].path
  {
    if ops != [] {
      assert ops[0] in ops;
      assert forall op :: op in ops[1..] ==> op in ops;
      AllWrites(ops[1..]);
    }
  }

  lemma ApartIsIndependent(ops: seq<Operation>)
    requires forall op :: op in ops ==> !op.Test?
    ensures Independent(WritePaths(ops)) <==> Apart(ops)
  {
    AllWrites(ops);
    hide Tokens;
    if Independent(WritePaths(ops)) {
      forall i, j | 0 <= i < |ops| && 0 <= j < |ops| && i != j ensures !Comparable(Tokens(ops[i].path), Tokens(ops[j].path)) {
        var (x, y) := if i < j then (i, j) else (j, i);
        assert !Comparable(Tokens(WritePaths(ops)[x]), Tokens(WritePaths(ops)[y]));
      }
    }
    if Apart(ops) {
      forall i, j | 0 <= i < j < |ops| ensures !Comparable(Tokens(WritePaths(ops)[i]), Tokens(WritePaths(ops)[j])) {
        assert !Comparable(Tokens(ops[i].path), Tokens(ops[j].path));
      }
    }
  }

  /**
   * Any permutation of an accepted list of replacements and of removals of object members is
   * accepted, with the same document.
   */
  lemma DeltaOrder(base: Json, a: seq<Operation>, b: seq<Operation>, scope: Scope)
    requires DeltaOutcome(base, a, scope).Accepted? && ObjectWrites(DeepClone(base), a) && multiset(a) == multiset(b)
    ensures DeltaOutcome(base, b, scope) == DeltaOutcome(base, a, scope)
  {
    AcceptedWhen(base, a, scope);
    AcceptedWhen(base, b, scope);
    hide DeltaOutcome, ValidatePointer, ScopeContains, ValidRoots, Steps, Step, DeepClone, StateHash, Independent, Apart;
    assert forall op :: op in a <==> op in multiset(a);
    assert forall op :: op in b <==> op in multiset(b);
    ApartIsIndependent(a);
    ApartIsIndependent(b);
    StepsAllApply(DeepClone(base), a);
    ApartPermuted(a, b);
    AnyOrder(DeepClone(base), a, b);
  }

  /** Whether paths are pairwise incomparable does not depend on their order. */
  lemma {:induction false} ApartPermuted(a: seq<Operation>, b: seq<Operation>)
    requires Apart(a) && multiset(a) == multiset(b)
    ensures Apart(b)
    decreases b
  {
    hide Tokens, Comparable, Apart, Without;
    if b != [] {
      var i := Matching(a, b);
      var moved := [a[i]] + Without(a, i);
      ReorderedApart(a, i);
      assert moved[1..] == Without(a, i);
      ApartTail(moved);
      ApartPermuted(Without(a, i), b[1..]);
      ApartPrepend(moved, b);
    }
  }

  lemma ApartTail(ops: seq<Operation>)
    requires ops != [] && Apart(ops)
    ensures Apart(ops[1..])
  {
    hide Tokens, Comparable;
    assert forall i :: 0 <= i < |ops[1..]| ==> ops[1..][i] == ops[i + 1];
  }

  lemma ApartPrepend(moved: seq<Operation>, b: seq<Operation>)
    requires Apart(moved) && moved != [] && b != [] && moved[0] == b[0] && Apart(b[1..])
    requires forall op :: op in b[1..] ==> op in moved[1..]
    ensures Apart(b)
  {
    hide Tokens, Comparable;
    forall j | 1 <= j < |b|
      ensures !Comparable(Tokens(b[0].path), Tokens(b[j].path)) && !Comparable(Tokens(b[j].path), Tokens(b[0].path))
    {
      assert b[1..][j - 1] in moved[1..];
      var k :| 0 <= k < |moved[1..]| && moved[1..][k] == b[j];
      assert moved[k + 1] == b[j];
    }
    assert forall i :: 0 <= i < |b[1..]| ==> b[1..][i] == b[i + 1];
    forall i, j | 0 <= i < |b| && 0 <= j < |b| && i != j ensures !Comparable(Tokens(b[i].path), Tokens(b[j].path)) {
      assert i > 0 && j > 0 ==> b[i] == b[1..][i - 1] && b[j] == b[1..][j - 1];
    }
  }

  lemma WithoutCount<T>(s: seq<T>, i: nat)
    requires i < |s|
    ensures multiset(s) == multiset(Without(s, i)) + multiset{s[i]}
  {
    assert s == s[..i] + [s[i]] + s[i + 1..];
  }

  /** Where the first element of a permutation was. */
  lemma Matching<T>(a: seq<T>, b: seq<T>) returns (i: nat)
    requires multiset(a) == multiset(b) && b != []
    ensures i < |a| && a[i] == b[0]
    ensures multiset(Without(a, i)) == multiset(b[1..])
    ensures forall x :: x in b[1..] ==> x in Without(a, i)
  {
    assert b[0] in multiset(b) && b[0] in a;
    i :| 0 <= i < |a| && a[i] == b[0];
    WithoutCount(a, i);
    WithoutCount(b, 0);
    assert Without(b, 0) == b[1..];
    var left, right := Without(a, i), b[1..];
    hide Without;
    assert multiset(left) == multiset(a) - multiset{b[0]} == multiset(right);
    forall x | x in right ensures x in left {
      assert x in multiset(right);
    }
  }
}
