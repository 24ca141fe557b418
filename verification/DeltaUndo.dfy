/** Every accepted delta has an inverse, which is accepted in the same scope and restores the base. */
module DeltaUndo {
  import opened Wrappers
  import opened Canonical
  import opened Pointers
  import opened Delta
  import opened DeltaEngine
  import opened DeltaLaws

  /** The operation that takes back a write, guarded by the digests it will meet. */
  function UndoOf(doc: Json, op: Operation): Operation
    requires Step(doc, op).Done? && !op.Test?
  {
    StepIsEdit(doc, op);
    var tokens, after := Tokens(op.path), Step(doc, op).value;
    WhenEditable(doc, tokens, EditOf(op));
    match op
    case Add(path, _, value) => Remove(path, JsonValueDigest(DeepClone(value)))
    case Replace(path, _, value) => Replace(path, JsonValueDigest(DeepClone(value)), ReadAt(doc, tokens).value)
    case Remove(path, _) =>
      EditInsideParent(doc, tokens, Drop);
      Add(path, JsonValueDigest(ReadAt(after, Front(tokens)).value), ReadAt(doc, tokens).value)
  }

  /** The inverses of the writes, last first. */
  function Undo(doc: Json, ops: seq<Operation>): seq<Operation>
    requires Steps(doc, ops).Done?
    decreases ops
  {
    if ops == [] then []
    else Undo(Step(doc, ops[0]).value, ops[1..]) + (if ops[0].Test? then [] else [UndoOf(doc, ops[0])])
  }

  lemma {:induction false} ReadEdited(v: Json, tokens: seq<string>, e: Edit)
    requires CanEditAt(v, tokens, e) && !e.Drop?
    ensures ReadAt(EditAt(v, tokens, e), tokens) == Some(e.value)
  {
    if tokens != [] {
      var k := tokens[0];
      if |tokens| == 1 && !e.Put? {
        assert tokens[1..] == [];
        assert Child(EditHere(v, k, e), k) == Some(e.value);
      } else {
        var child := Child(v, k).value;
        ReadEdited(child, tokens[1..], e);
        ChildrenAfter(v, k, Put(EditAt(child, tokens[1..], e)), k);
      }
    }
  }

  lemma CloneNormal(v: Json)
    requires IsNormal(v)
    ensures DeepClone(v) == v
  {
  }

  /** The inverse operation makes the inverse edit. */
  lemma UndoIsInverse(doc: Json, op: Operation)
    requires IsNormal(doc) && Step(doc, op).Done? && !op.Test?
    ensures CanEditAt(doc, Tokens(op.path), EditOf(op))
    ensures UndoOf(doc, op).path == op.path && !UndoOf(doc, op).Test?
    ensures EditOf(UndoOf(doc, op)) == Inverse(doc, Tokens(op.path), EditOf(op))
  {
    StepIsEdit(doc, op);
    WhenEditable(doc, Tokens(op.path), EditOf(op));
    if !op.Add? {
      NormalPart(doc, Tokens(op.path));
      CloneNormal(ReadAt(doc, Tokens(op.path)).value);
    }
    hide Tokens, IsNormal, ReadAt, CanEditAt, EditAt, DeepClone, DomainDigest, ValidatePointer;
  }

  /** A guarded edit succeeds when the edit is possible and the guard names what is there. */
  lemma StepSucceeds(doc: Json, op: Operation)
    requires ValidatePointer(op.path).Some? && !op.Test? && CanEditAt(doc, Tokens(op.path), EditOf(op))
    requires op.Add? ==> Tokens(op.path) != [] && ParentAt(doc, Tokens(op.path)).Some?
                         && op.expected == JsonValueDigest(ParentAt(doc, Tokens(op.path)).value)
    requires !op.Add? ==> ReadAt(doc, Tokens(op.path)).Some? && op.expected == JsonValueDigest(ReadAt(doc, Tokens(op.path)).value)
    ensures Step(doc, op) == Done(EditAt(doc, Tokens(op.path), EditOf(op)))
  {
    WhenEditable(doc, Tokens(op.path), EditOf(op));
    hide ReadAt, CanEditAt, EditAt, DomainDigest, DeepClone;
  }

  lemma StepUndone(doc: Json, op: Operation)
    requires IsNormal(doc) && Step(doc, op).Done? && !op.Test?
    ensures Step(Step(doc, op).value, UndoOf(doc, op)) == Done(doc)
  {
    StepIsEdit(doc, op);
    UndoIsInverse(doc, op);
    var tokens, e, back := Tokens(op.path), EditOf(op), UndoOf(doc, op);
    var after := Step(doc, op).value;
    EditUndone(doc, tokens, e);
    WhenEditable(after, tokens, EditOf(back));
    if !e.Drop? { ReadEdited(doc, tokens, e); }
    hide Step, EditAt, CanEditAt, ReadAt, DomainDigest, IsNormal, DeepClone, Inverse, Tokens;
    StepSucceeds(after, back);
  }

  lemma {:induction false} StepsUndone(doc: Json, ops: seq<Operation>)
    requires IsNormal(doc) && Steps(doc, ops).Done?
    ensures Steps(Steps(doc, ops).value, Undo(doc, ops)) == Done(doc)
    decreases ops
  {
    hide Step, IsNormal, UndoOf;
    if ops != [] {
      var next, rest := Step(doc, ops[0]).value, ops[1..];
      NormalStep(doc, ops[0]);
      StepsUndone(next, rest);
      if ops[0].Test? {
        StepIsEdit(doc, ops[0]);
        assert Undo(doc, ops) == Undo(next, rest);
      } else {
        StepsConcat(Steps(doc, ops).value, Undo(next, rest), [UndoOf(doc, ops[0])]);
        StepUndone(doc, ops[0]);
        OneStep(next, UndoOf(doc, ops[0]), []);
        assert [UndoOf(doc, ops[0])] + [] == [UndoOf(doc, ops[0])];
      }
    }
  }

  function Reversed<T>(s: seq<T>): (r: seq<T>)
    ensures |r| == |s|
    ensures forall i :: 0 <= i < |s| ==> r[i] == s[|s| - 1 - i]
  {
    if s == [] then [] else Reversed(s[1..]) + [s[0]]
  }

  /** The inverse writes are at the same paths, last first. */
  lemma {:induction false} UndoPaths(doc: Json, ops: seq<Operation>)
    requires IsNormal(doc) && Steps(doc, ops).Done?
    ensures WritePaths(Undo(doc, ops)) == Reversed(WritePaths(ops))
    decreases ops
  {
    hide Step, IsNormal, UndoOf;
    if ops != [] {
      var next, rest := Step(doc, ops[0]).value, ops[1..];
      NormalStep(doc, ops[0]);
      UndoPaths(next, rest);
      if ops[0].Test? {
        assert Undo(doc, ops) == Undo(next, rest) && WritePaths(ops) == WritePaths(rest);
      } else {
        UndoIsInverse(doc, ops[0]);
        var back := UndoOf(doc, ops[0]);
        WritePathsConcat(Undo(next, rest), [back]);
        assert WritePaths([back]) == [back.path] by { assert [back][1..] == []; }
        var w := WritePaths(ops);
        assert w[0] == back.path && w[1..] == WritePaths(rest);
      }
    }
  }

  /** Every inverse operation is at the path of a write. */
  lemma UndoWithin(doc: Json, ops: seq<Operation>)
    requires IsNormal(doc) && Steps(doc, ops).Done?
    ensures forall back :: back in Undo(doc, ops) ==> exists op :: op in ops && op.path == back.path
  {
    UndoPaths(doc, ops);
    OnlyWrites(doc, ops);
    WritePathsAre(ops);
    WritePathsAre(Undo(doc, ops));
    var w := WritePaths(ops);
    hide Steps, Undo, IsNormal, WritePaths;
    forall back | back in Undo(doc, ops) ensures exists op :: op in ops && op.path == back.path {
      assert back.path in Reversed(w);
      assert back.path in w;
    }
  }

  lemma {:induction false} OnlyWrites(doc: Json, ops: seq<Operation>)
    requires IsNormal(doc) && Steps(doc, ops).Done?
    ensures forall back :: back in Undo(doc, ops) ==> !back.Test?
    decreases ops
  {
    hide Step, IsNormal, UndoOf;
    if ops != [] {
      NormalStep(doc, ops[0]);
      OnlyWrites(Step(doc, ops[0]).value, ops[1..]);
      if !ops[0].Test? { UndoIsInverse(doc, ops[0]); }
    }
  }

  lemma ReversedIndependent(writes: seq<string>)
    requires Independent(writes)
    ensures Independent(Reversed(writes))
  {
    hide Tokens;
    var back := Reversed(writes);
    forall i, j | 0 <= i < j < |back| ensures !Comparable(Tokens(back[i]), Tokens(back[j])) {
      assert !Comparable(Tokens(writes[|writes| - 1 - j]), Tokens(writes[|writes| - 1 - i]));
    }
  }

  /**
   * From an accepted document, the inverse operations are accepted in the same scope and restore
   * the base, so no accepted delta loses information.
   */
  lemma DeltaUndone(base: Json, ops: seq<Operation>, scope: Scope)
    requires DeltaOutcome(base, ops, scope).Accepted?
    ensures Steps(DeepClone(base), ops).Done?
    ensures DeltaOutcome(DeltaOutcome(base, ops, scope).document, Undo(DeepClone(base), ops), scope)
         == Accepted(DeepClone(base), StateHash(DeepClone(base)))
  {
    var clone := DeepClone(base);
    AcceptedWhen(base, ops, scope);
    NormalizeIdempotent(base);
    NormalSteps(clone, ops);
    var document, back := Steps(clone, ops).value, Undo(clone, ops);
    StepsUndone(clone, ops);
    UndoPaths(clone, ops);
    UndoWithin(clone, ops);
    ReversedIndependent(WritePaths(ops));
    CloneNormal(document);
    assert PathsInScope(back, scope) by {
      hide ValidatePointer, ScopeContains, Steps;
    }
    AcceptedWhen(document, back, scope);
    hide DeltaOutcome, Steps, Undo, StateHash, Independent, PathsInScope, ValidRoots, DeepClone;
  }
}
