/** `applyDelta`: checking and applying a list of operations (packages/domain/src/delta.ts). */
module DeltaEngine {
  import opened Wrappers
  import opened Lists
  import opened Canonical
  import opened Pointers
  import opened Delta

  datatype Operation =
    | Test(path: string, expected: Hash)
    | Add(path: string, expected: Hash, value: Json)
    | Replace(path: string, expected: Hash, value: Json)
    | Remove(path: string, expected: Hash)

  datatype Reason =
    | TestFailed | AddParentChanged | AddTargetExists | PathMissing | ValueDigestMismatch | ArrayIndexRange
    | InvalidPointer | ScopeEscape | DuplicateWriteTarget | OverlappingWriteTarget
    | RootAddForbidden | RootRemoveForbidden | FinalDocumentUnchanged

  /** The document after some operations, or why one of them failed. */
  datatype Applied = Done(value: Json) | Failed(reason: Reason)

  datatype Outcome =
    | Accepted(document: Json, stateHash: Hash)
    | Conflicted(reason: Reason)
    | Rejected(reason: Reason)

  /** Failures that a newer base may cure are conflicts. */
  function Failure(reason: Reason): Outcome {
    match reason
    case TestFailed | AddParentChanged | AddTargetExists | PathMissing | ValueDigestMismatch | ArrayIndexRange => Conflicted(reason)
    case _ => Rejected(reason)
  }

  // ----- One operation -----

  /** What one operation makes of the document, or the reason why it fails. */
  function Step(doc: Json, op: Operation): Applied {
    match ValidatePointer(op.path)
    case None => Failed(InvalidPointer)
    case Some(tokens) =>
      var current := ReadAt(doc, tokens);
      if op.Test? then
        if current.None? || JsonValueDigest(current.value) != op.expected then Failed(TestFailed) else Done(doc)
      else if op.Add? then StepAdd(doc, tokens, op.expected, op.value)
      else if op.Remove? && tokens == [] then Failed(RootRemoveForbidden)
      else if current.None? then Failed(PathMissing)
      else if JsonValueDigest(current.value) != op.expected then Failed(ValueDigestMismatch)
      else
        WhenEditable(doc, tokens, EditOf(op));
        Done(EditAt(doc, tokens, EditOf(op)))
  }

  function StepAdd(doc: Json, tokens: seq<string>, expected: Hash, value: Json): Applied {
    if tokens == [] then Failed(RootAddForbidden)
    else
      var parent := ParentAt(doc, tokens);
      if parent.None? then Failed(PathMissing)
      else if JsonValueDigest(parent.value) != expected then Failed(AddParentChanged)
      else if !CanEdit(parent.value, Last(tokens), Insert(DeepClone(value))) then
        Failed(if parent.value.Arr? then ArrayIndexRange else AddTargetExists)
      else
        WhenEditable(doc, tokens, Insert(DeepClone(value)));
        Done(EditAt(doc, tokens, Insert(DeepClone(value))))
  }

  function EditOf(op: Operation): Edit
    requires !op.Test?
  {
    match op
    case Add(_, _, value) => Insert(DeepClone(value))
    case Replace(_, _, value) => Put(DeepClone(value))
    case Remove(_, _) => Drop
  }

  function Tokens(path: string): seq<string> {
    if ValidatePointer(path).Some? then ValidatePointer(path).value else []
  }

  /** A successful write is one edit at its path; a successful test changes nothing. */
  lemma StepIsEdit(doc: Json, op: Operation)
    requires Step(doc, op).Done?
    ensures ValidatePointer(op.path) == Some(Tokens(op.path))
    ensures op.Test? ==> Step(doc, op).value == doc
    ensures !op.Test? ==> CanEditAt(doc, Tokens(op.path), EditOf(op)) && Step(doc, op).value == EditAt(doc, Tokens(op.path), EditOf(op))
  {
    WhenEditable(doc, Tokens(op.path), if op.Test? then Drop else EditOf(op));
    hide ValidatePointer, EditAt, CanEditAt, ReadAt, DeepClone;
  }

  /** The operations from left to right, up to the first that fails. */
  function Steps(doc: Json, ops: seq<Operation>): Applied
    decreases ops
  {
    if ops == [] then Done(doc)
    else
      match Step(doc, ops[0])
      case Failed(reason) => Failed(reason)
      case Done(next) => Steps(next, ops[1..])
  }

  lemma NoSteps(doc: Json)
    ensures Steps(doc, []) == Done(doc)
  {
  }

  lemma {:induction false} StepsConcat(doc: Json, a: seq<Operation>, b: seq<Operation>)
    ensures Steps(doc, a + b) == if Steps(doc, a).Failed? then Steps(doc, a) else Steps(Steps(doc, a).value, b)
    decreases a
  {
    hide Step;
    if a == [] {
      assert a + b == b;
    } else {
      assert (a + b)[1..] == a[1..] + b;
      if Step(doc, a[0]).Done? {
        StepsConcat(Step(doc, a[0]).value, a[1..], b);
      }
    }
  }

  /** One more operation of a list. */
  lemma StepsNext(doc: Json, ops: seq<Operation>, i: nat)
    requires i < |ops| && Steps(doc, ops[..i]).Done?
    ensures var next := Step(Steps(doc, ops[..i]).value, ops[i]);
            && Steps(doc, ops[..i + 1]) == next
            && (next.Failed? ==> Steps(doc, ops) == next)
  {
    hide Step;
    var next := Step(Steps(doc, ops[..i]).value, ops[i]);
    assert ops[..i + 1] == ops[..i] + [ops[i]];
    assert ops == ops[..i + 1] + ops[i + 1..];
    StepsConcat(doc, ops[..i], [ops[i]]);
    StepsConcat(doc, ops[..i + 1], ops[i + 1..]);
  }

  // ----- The checks on the paths -----

  /** The first fault among the paths: an invalid pointer, or a path outside the scope. */
  function PathFault(ops: seq<Operation>, scope: Scope): Option<Reason> {
    if ops == [] then None
    else if ValidatePointer(ops[0].path).None? then Some(InvalidPointer)
    else if ScopeContains(scope, ops[0].path) != Ok(true) then Some(ScopeEscape)
    else PathFault(ops[1..], scope)
  }

  lemma {:induction false} NoPathFault(ops: seq<Operation>, scope: Scope)
    ensures PathFault(ops, scope).None? <==>
            forall op :: op in ops ==> ValidatePointer(op.path).Some? && ScopeContains(scope, op.path) == Ok(true)
  {
    hide ValidatePointer, ScopeContains;
    if ops != [] {
      NoPathFault(ops[1..], scope);
      assert forall op :: op in ops <==> op == ops[0] || op in ops[1..];
    }
  }

  lemma {:induction false} PathFaultPrefix(ops: seq<Operation>, scope: Scope, i: nat)
    requires i < |ops| && PathFault(ops[..i], scope).None?
    ensures PathFault(ops[..i + 1], scope).None? ==>
              ValidatePointer(ops[i].path).Some? && ScopeContains(scope, ops[i].path) == Ok(true)
    ensures PathFault(ops[..i + 1], scope).Some? ==> PathFault(ops, scope) == PathFault([ops[i]], scope)
    ensures ValidatePointer(ops[i].path).Some? && ScopeContains(scope, ops[i].path) == Ok(true) ==> PathFault(ops[..i + 1], scope).None?
  {
    hide ValidatePointer, ScopeContains;
    if i == 0 {
      assert ops[..1] == [ops[0]];
    } else {
      assert ops[..i][1..] == ops[1..][..i - 1] && ops[..i + 1][1..] == ops[1..][..i];
      PathFaultPrefix(ops[1..], scope, i - 1);
    }
  }

  function WritePaths(ops: seq<Operation>): seq<string> {
    if ops == [] then []
    else (if ops[0].Test? then [] else [ops[0].path]) + WritePaths(ops[1..])
  }

  lemma {:induction false} WritePathsConcat(a: seq<Operation>, b: seq<Operation>)
    ensures WritePaths(a + b) == WritePaths(a) + WritePaths(b)
  {
    if a == [] {
      assert a + b == b;
    } else {
      assert (a + b)[1..] == a[1..] + b;
      WritePathsConcat(a[1..], b);
    }
  }

  lemma {:induction false} WritePathsAre(ops: seq<Operation>)
    ensures forall w :: w in WritePaths(ops) <==> exists op :: op in ops && !op.Test? && op.path == w
  {
    if ops != [] {
      WritePathsAre(ops[1..]);
      assert forall op :: op in ops <==> op == ops[0] || op in ops[1..];
    }
  }

  /** The test on two different write paths. */
  predicate PathsOverlap(p: string, q: string) {
    (p != "" && p + "/" <= q) || (q != "" && q + "/" <= p) || p == "" || q == ""
  }

  predicate SomeOverlap(writes: seq<string>) {
    exists i, j :: 0 <= i < j < |writes| && PathsOverlap(writes[i], writes[j])
  }

  /** No token path of a write is a prefix of another's. */
  predicate Independent(writes: seq<string>) {
    forall i, j :: 0 <= i < j < |writes| ==> !Comparable(Tokens(writes[i]), Tokens(writes[j]))
  }

  /** The tests on the texts refuse exactly the writes that are not independent. */
  lemma WritesRefused(writes: seq<string>)
    requires forall w :: w in writes ==> ValidatePointer(w).Some?
    ensures !Distinct(writes) || SomeOverlap(writes) <==> !Independent(writes)
  {
    forall i, j | 0 <= i < j < |writes|
      ensures writes[i] == writes[j] || PathsOverlap(writes[i], writes[j]) <==> Comparable(Tokens(writes[i]), Tokens(writes[j]))
    {
      OverlapIsPrefix(writes[i], writes[j], Tokens(writes[i]), Tokens(writes[j]));
    }
  }

  // ----- Whole deltas -----

  /** The outcome of a delta. */
  ghost function DeltaOutcome(base: Json, ops: seq<Operation>, scope: Scope): Outcome {
    if !ValidRoots(scope.roots) then Failure(InvalidPointer)
    else if PathFault(ops, scope).Some? then Failure(PathFault(ops, scope).value)
    else if !Distinct(WritePaths(ops)) then Failure(DuplicateWriteTarget)
    else if SomeOverlap(WritePaths(ops)) then Failure(OverlappingWriteTarget)
    else
      match Steps(DeepClone(base), ops)
      case Failed(reason) => Failure(reason)
      case Done(document) =>
        if JsonValueDigest(document) == JsonValueDigest(base) then Failure(FinalDocumentUnchanged)
        else Accepted(document, StateHash(document))
  }

  method CheckPaths(ops: seq<Operation>, scope: Scope) returns (fault: Option<Reason>, writes: seq<string>)
    requires ValidRoots(scope.roots)
    ensures fault == PathFault(ops, scope)
    ensures fault.None? ==> writes == WritePaths(ops)
  {
    writes := [];
    for i := 0 to |ops|
      invariant PathFault(ops[..i], scope).None? && writes == WritePaths(ops[..i])
    {
      PathFaultPrefix(ops, scope, i);
      assert ops[..i + 1] == ops[..i] + [ops[i]];
      WritePathsConcat(ops[..i], [ops[i]]);
      if ValidatePointer(ops[i].path).None? {
        return Some(InvalidPointer), writes;
      }
      if ScopeContains(scope, ops[i].path) != Ok(true) {
        return Some(ScopeEscape), writes;
      }
      if !ops[i].Test? {
        writes := writes + [ops[i].path];
      }
    }
    assert ops[..|ops|] == ops;
    fault := None;
  }

  method FindOverlap(writes: seq<string>) returns (found: bool)
    ensures found <==> SomeOverlap(writes)
  {
    for index := 0 to |writes|
      invariant forall i, j :: 0 <= i < index && i < j < |writes| ==> !PathsOverlap(writes[i], writes[j])
    {
      for other := index + 1 to |writes|
        invariant forall j :: index < j < other ==> !PathsOverlap(writes[index], writes[j])
      {
        if PathsOverlap(writes[index], writes[other]) {
          return true;
        }
      }
    }
    found := false;
  }

  /** One turn of the loop that applies the operations. */
  method ApplyOperation(doc: Json, op: Operation) returns (r: Applied)
    ensures r == Step(doc, op)
  {
    hide ValidatePointer, ReadAt, EditAt, CanEditAt, DeepClone, DomainDigest;
    var pointer := ValidatePointer(op.path);
    if pointer.None? {
      return Failed(InvalidPointer);
    }
    var tokens := pointer.value;
    var current := Read(doc, tokens);
    if op.Test? {
      return if current.None? || JsonValueDigest(current.value) != op.expected then Failed(TestFailed) else Done(doc);
    }
    if op.Add? {
      if tokens == [] {
        return Failed(RootAddForbidden);
      }
      var location := ParentAndKey(doc, tokens);
      if location.None? {
        return Failed(PathMissing);
      }
      var (parent, key) := location.value;
      if JsonValueDigest(parent) != op.expected {
        return Failed(AddParentChanged);
      }
      if parent.Arr? && (!IsIndex(key) || Index(key) > |parent.items|) {
        return Failed(ArrayIndexRange);
      }
      if parent.Obj? && key in parent.fields {
        return Failed(AddTargetExists);
      }
    } else {
      if op.Remove? && tokens == [] {
        return Failed(RootRemoveForbidden);
      }
      if current.None? {
        return Failed(PathMissing);
      }
      if JsonValueDigest(current.value) != op.expected {
        return Failed(ValueDigestMismatch);
      }
    }
    WhenEditable(doc, tokens, EditOf(op));
    r := Done(EditAt(doc, tokens, EditOf(op)));
  }

  /** `applyDelta`. */
  method ApplyDelta(base: Json, ops: seq<Operation>, scope: Scope) returns (r: Outcome)
    ensures r == DeltaOutcome(base, ops, scope)
  {
    hide ValidRoots, Step, Steps, PathFault, WritePaths, SomeOverlap, DomainDigest, DeepClone;
    if !ValidRoots(scope.roots) {
      return Failure(InvalidPointer);
    }
    var fault, writes := CheckPaths(ops, scope);
    if fault.Some? {
      return Failure(fault.value);
    }
    CountDistinct(writes);
    if |Elements(writes)| != |writes| {
      if Distinct(writes) { DistinctCount(writes); }
      return Failure(DuplicateWriteTarget);
    }
    var overlap := FindOverlap(writes);
    if overlap {
      return Failure(OverlappingWriteTarget);
    }
    var document := DeepClone(base);
    assert Steps(document, ops[..0]) == Done(document) by { NoSteps(document); }
    for i := 0 to |ops|
      invariant Steps(DeepClone(base), ops[..i]) == Done(document)
    {
      StepsNext(DeepClone(base), ops, i);
      var next := ApplyOperation(document, ops[i]);
      if next.Failed? {
        return Failure(next.reason);
      }
      document := next.value;
    }
    assert ops[..|ops|] == ops;
    if JsonValueDigest(document) == JsonValueDigest(base) {
      return Failure(FinalDocumentUnchanged);
    }
    r := Accepted(document, StateHash(document));
  }
}
