/** The delta engine: digest-guarded edits of a JSON document (packages/domain/src/delta.ts). */
module Delta {
  import opened Wrappers
  import opened Canonical
  import opened Pointers
  import Text

  // ----- Reading -----

  /** The pattern `0|[1-9][0-9]*` of array positions. */
  predicate IsIndex(token: string) {
    token != "" && (forall c :: c in token ==> Text.IsDigit(c)) && (|token| > 1 ==> token[0] != '0')
  }

  function Index(token: string): nat
    requires IsIndex(token)
  {
    Text.Number(token)
  }

  lemma IndexInjective(a: string, b: string)
    requires IsIndex(a) && IsIndex(b)
    ensures Index(a) == Index(b) <==> a == b
  {
    Text.DecimalOfNumber(a);
    Text.DecimalOfNumber(b);
  }

  function Child(v: Json, token: string): Option<Json> {
    match v
    case Arr(items) => if IsIndex(token) && Index(token) < |items| then Some(items[Index(token)]) else None
    case Obj(fields) => if token in fields then Some(fields[token]) else None
    case _ => None
  }

  /** The value at a path, if there is one. */
  function ReadAt(v: Json, tokens: seq<string>): Option<Json> {
    if tokens == [] then Some(v)
    else
      var child := Child(v, tokens[0]);
      if child.None? then None else ReadAt(child.value, tokens[1..])
  }

  predicate IsContainer(v: Json) {
    v.Arr? || v.Obj?
  }

  function Front<T>(s: seq<T>): seq<T>
    requires s != []
  {
    s[..|s| - 1]
  }

  function Last<T>(s: seq<T>): T
    requires s != []
  {
    s[|s| - 1]
  }

  /** The array or object that would hold the last token of a path. */
  function ParentAt(v: Json, tokens: seq<string>): Option<Json>
    requires tokens != []
  {
    var parent := ReadAt(v, Front(tokens));
    if parent.Some? && IsContainer(parent.value) then parent else None
  }

  lemma {:induction false} ReadInside(v: Json, p: seq<string>, q: seq<string>)
    ensures ReadAt(v, p + q) == if ReadAt(v, p).None? then None else ReadAt(ReadAt(v, p).value, q)
  {
    if p == [] {
      assert p + q == q;
    } else {
      assert (p + q)[1..] == p[1..] + q;
      if Child(v, p[0]).Some? {
        ReadInside(Child(v, p[0]).value, p[1..], q);
      }
    }
  }

  /** `parentAndKey`: the walk to the parent of a path. */
  method ParentAndKey(document: Json, tokens: seq<string>) returns (r: Option<(Json, string)>)
    ensures r == if tokens == [] || ParentAt(document, tokens).None? then None
                 else Some((ParentAt(document, tokens).value, Last(tokens)))
  {
    if tokens == [] {
      return None;
    }
    var current := document;
    for i := 0 to |tokens| - 1
      invariant ReadAt(document, tokens[..i]) == Some(current)
    {
      ReadInside(document, tokens[..i], [tokens[i]]);
      assert tokens[..i] + [tokens[i]] == tokens[..i + 1];
      var child := Child(current, tokens[i]);
      if child.None? {
        ReadInside(document, tokens[..i + 1], tokens[i + 1..|tokens| - 1]);
        assert tokens[..i + 1] + tokens[i + 1..|tokens| - 1] == Front(tokens);
        return None;
      }
      current := child.value;
    }
    r := if IsContainer(current) then Some((current, Last(tokens))) else None;
  }

  /** `readAt`. */
  method Read(document: Json, tokens: seq<string>) returns (r: Option<Json>)
    ensures r == ReadAt(document, tokens)
  {
    if tokens == [] {
      return Some(document);
    }
    var location := ParentAndKey(document, tokens);
    assert tokens == Front(tokens) + [Last(tokens)];
    ReadInside(document, Front(tokens), [Last(tokens)]);
    if location.None? {
      return None;
    }
    r := Child(location.value.0, location.value.1);
  }

  // ----- Editing -----

  /** One change below a container: a new value for a key, its removal, or a new key or position. */
  datatype Edit = Put(value: Json) | Drop | Insert(value: Json)

  predicate CanEdit(v: Json, key: string, e: Edit) {
    match v
    case Arr(items) => IsIndex(key) && (Index(key) < |items| || (e.Insert? && Index(key) == |items|))
    case Obj(fields) => e.Insert? <==> key !in fields
    case _ => false
  }

  function EditHere(v: Json, key: string, e: Edit): Json
    requires CanEdit(v, key, e)
  {
    match v
    case Arr(items) =>
      var n := Index(key);
      (match e
       case Put(w) => Arr(items[n := w])
       case Drop => Arr(items[..n] + items[n + 1..])
       case Insert(w) => Arr(items[..n] + [w] + items[n..]))
    case Obj(fields) => Obj(if e.Drop? then fields - {key} else fields[key := e.value])
  }

  predicate CanEditAt(v: Json, tokens: seq<string>, e: Edit) {
    if tokens == [] then e.Put?
    else if |tokens| == 1 && !e.Put? then CanEdit(v, tokens[0], e)
    else Child(v, tokens[0]).Some? && CanEditAt(Child(v, tokens[0]).value, tokens[1..], e)
  }

  function EditAt(v: Json, tokens: seq<string>, e: Edit): Json
    requires CanEditAt(v, tokens, e)
  {
    if tokens == [] then e.value
    else if |tokens| == 1 && !e.Put? then EditHere(v, tokens[0], e)
    else EditHere(v, tokens[0], Put(EditAt(Child(v, tokens[0]).value, tokens[1..], e)))
  }

  /** A path can be written exactly when it, or its parent, is there. */
  lemma {:induction false} WhenEditable(v: Json, tokens: seq<string>, e: Edit)
    ensures e.Put? ==> (CanEditAt(v, tokens, e) <==> ReadAt(v, tokens).Some?)
    ensures e.Drop? ==> (CanEditAt(v, tokens, e) <==> tokens != [] && ReadAt(v, tokens).Some?)
    ensures e.Insert? ==>
              (CanEditAt(v, tokens, e) <==>
               tokens != [] && ParentAt(v, tokens).Some? && CanEdit(ParentAt(v, tokens).value, Last(tokens), e))
  {
    if |tokens| == 1 {
      assert tokens[1..] == [];
    } else if |tokens| > 1 && Child(v, tokens[0]).Some? {
      WhenEditable(Child(v, tokens[0]).value, tokens[1..], e);
      assert Front(tokens)[1..] == Front(tokens[1..]);
    }
  }

  /** Editing below a path is editing the value that is there. */
  lemma {:induction false} EditInside(v: Json, p: seq<string>, q: seq<string>, e: Edit)
    requires q != []
    ensures CanEditAt(v, p + q, e) <==> ReadAt(v, p).Some? && CanEditAt(ReadAt(v, p).value, q, e)
    ensures CanEditAt(v, p + q, e) ==>
              ReadAt(EditAt(v, p + q, e), p) == Some(EditAt(ReadAt(v, p).value, q, e))
  {
    if p == [] {
      assert p + q == q;
    } else {
      assert (p + q)[1..] == p[1..] + q;
      if Child(v, p[0]).Some? {
        var child := Child(v, p[0]).value;
        EditInside(child, p[1..], q, e);
        if CanEditAt(v, p + q, e) {
          ChildrenAfter(v, p[0], Put(EditAt(child, p[1..] + q, e)), p[0]);
        }
      }
    }
  }

  /** The children of a container after an edit that moves none of them. */
  lemma ChildrenAfter(v: Json, key: string, e: Edit, other: string)
    requires CanEdit(v, key, e) && (v.Arr? ==> e.Put?)
    ensures Child(EditHere(v, key, e), other)
         == if other == key then (if e.Drop? then None else Some(e.value)) else Child(v, other)
  {
    if v.Arr? && IsIndex(other) {
      IndexInjective(key, other);
    }
  }

  // ----- The frame -----

  /**
   * What an edit may change: the path itself, or all of the parent when it is an array whose
   * elements are moved.
   */
  function Region(v: Json, tokens: seq<string>, e: Edit): seq<string>
    requires CanEditAt(v, tokens, e)
  {
    if !e.Put? && MovesElements(v, tokens) then Front(tokens) else tokens
  }

  /** The parent of the path is an array. */
  predicate MovesElements(v: Json, tokens: seq<string>) {
    tokens != [] && ReadAt(v, Front(tokens)).Some? && ReadAt(v, Front(tokens)).value.Arr?
  }

  lemma RegionBelow(v: Json, tokens: seq<string>, e: Edit)
    requires CanEditAt(v, tokens, e) && |tokens| > 1
    ensures Region(v, tokens, e) == [tokens[0]] + Region(Child(v, tokens[0]).value, tokens[1..], e)
  {
    assert Front(tokens)[1..] == Front(tokens[1..]);
    assert tokens == [tokens[0]] + tokens[1..];
    assert Front(tokens) == [tokens[0]] + Front(tokens[1..]);
  }

  lemma OneToken(tokens: seq<string>, q: seq<string>)
    requires |tokens| == 1
    ensures tokens <= q <==> q != [] && q[0] == tokens[0]
  {
  }

  lemma AboveOrBeside(tokens: seq<string>, q: seq<string>)
    requires tokens != [] && !Comparable(tokens, q)
    ensures !(q <= Front(tokens))
    ensures Front(tokens) <= q ==> |q| >= |tokens| && q[|tokens| - 1] != Last(tokens)
  {
    assert tokens == Front(tokens) + [Last(tokens)];
  }

  /** An edit changes nothing at a path that is incomparable with its region. */
  lemma {:induction false} Frame(v: Json, tokens: seq<string>, e: Edit, q: seq<string>)
    requires CanEditAt(v, tokens, e) && !Comparable(Region(v, tokens, e), q)
    ensures ReadAt(EditAt(v, tokens, e), q) == ReadAt(v, q)
  {
    assert q != [] && tokens != [];
    var k := tokens[0];
    if |tokens| == 1 && !e.Put? {
      assert Front(tokens) == [] && !v.Arr?;
      OneToken(tokens, q);
      ChildrenAfter(v, k, e, q[0]);
    } else {
      var child := Child(v, k).value;
      ChildrenAfter(v, k, Put(EditAt(child, tokens[1..], e)), q[0]);
      assert |tokens| == 1 ==> (tokens <= q <==> q[0] == k);
      if q[0] == k {
        RegionBelow(v, tokens, e);
        assert q == [k] + q[1..];
        Frame(child, tokens[1..], e, q[1..]);
      }
    }
  }

  // ----- Arrays -----

  /** Where an element of an array is after a position is inserted or removed, if it is still there. */
  function Shifted(j: nat, n: nat, e: Edit): Option<nat>
    requires !e.Put?
  {
    if j < n then Some(j)
    else if e.Insert? then Some(j + 1)
    else if j == n then None
    else Some(j - 1)
  }

  lemma IndexOfDecimal(j: nat)
    ensures IsIndex(Text.Decimal(j)) && Index(Text.Decimal(j)) == j
  {
    Text.NumberOfDecimal(j);
  }

  /**
   * An insertion or removal in an array moves every element from that position on by exactly one,
   * with all that is below it.
   */
  lemma ElementsShift(v: Json, p: seq<string>, key: string, e: Edit, j: nat, q: seq<string>)
    requires !e.Put? && CanEditAt(v, p + [key], e)
    requires ReadAt(v, p).Some? && ReadAt(v, p).value.Arr?
    requires j < |ReadAt(v, p).value.items|
    ensures IsIndex(key)
    ensures var to := Shifted(j, Index(key), e);
            to.Some? ==> ReadAt(EditAt(v, p + [key], e), p + [Text.Decimal(to.value)] + q) == ReadAt(v, p + [Text.Decimal(j)] + q)
  {
    var tokens := p + [key];
    assert Front(tokens) == p && Last(tokens) == key;
    EditInsideParent(v, tokens, e);
    var to := Shifted(j, Index(key), e);
    if to.Some? {
      SiblingAfter(v, tokens, e, Text.Decimal(to.value), q);
      SiblingAfter(v, tokens, e, Text.Decimal(j), q);
      ElementMoves(ReadAt(v, p).value, key, e, j);
      hide EditAt, CanEditAt, EditHere, IsIndex, Text.Decimal;
      BelowToken(EditHere(ReadAt(v, p).value, key, e), Text.Decimal(to.value), q);
      BelowToken(ReadAt(v, p).value, Text.Decimal(j), q);
    }
  }

  lemma BelowToken(v: Json, token: string, q: seq<string>)
    ensures ReadAt(v, [token] + q) == if Child(v, token).None? then None else ReadAt(Child(v, token).value, q)
  {
    assert ([token] + q)[1..] == q;
  }

  lemma ElementMoves(v: Json, key: string, e: Edit, j: nat)
    requires v.Arr? && !e.Put? && CanEdit(v, key, e) && j < |v.items|
    ensures var to := Shifted(j, Index(key), e);
            to.Some? ==> Child(EditHere(v, key, e), Text.Decimal(to.value)) == Child(v, Text.Decimal(j)) == Some(v.items[j])
  {
    var to := Shifted(j, Index(key), e);
    if to.Some? {
      IndexOfDecimal(j);
      IndexOfDecimal(to.value);
    }
  }

  /** Nothing beside the path of an edit changes. */
  ghost predicate StaysOnPath(v: Json, tokens: seq<string>, e: Edit)
    requires CanEditAt(v, tokens, e)
  {
    forall q :: !Comparable(tokens, q) ==> ReadAt(EditAt(v, tokens, e), q) == ReadAt(v, q)
  }

  /**
   * The path is only the last place of its array.  Every other insertion or removal in an array
   * changes a sibling, which a scope rooted at the path does not contain.
   */
  predicate AtTheEnd(v: Json, tokens: seq<string>, e: Edit)
    requires CanEditAt(v, tokens, e) && !e.Put? && MovesElements(v, tokens)
  {
    EditInsideParent(v, tokens, e);
    var n := |ReadAt(v, Front(tokens)).value.items|;
    if e.Insert? then Index(Last(tokens)) == n else Index(Last(tokens)) == n - 1
  }

  lemma EditInsideParent(v: Json, tokens: seq<string>, e: Edit)
    requires CanEditAt(v, tokens, e) && !e.Put? && tokens != []
    ensures ReadAt(v, Front(tokens)).Some? && CanEdit(ReadAt(v, Front(tokens)).value, Last(tokens), e)
    ensures ReadAt(EditAt(v, tokens, e), Front(tokens)) == Some(EditHere(ReadAt(v, Front(tokens)).value, Last(tokens), e))
  {
    assert tokens == Front(tokens) + [Last(tokens)];
    EditInside(v, Front(tokens), [Last(tokens)], e);
  }

  /** A path one step below the parent of an edit. */
  lemma SiblingAfter(v: Json, tokens: seq<string>, e: Edit, token: string, q: seq<string>)
    requires CanEditAt(v, tokens, e) && !e.Put? && tokens != []
    ensures ReadAt(v, Front(tokens)).Some? && CanEdit(ReadAt(v, Front(tokens)).value, Last(tokens), e)
    ensures ReadAt(EditAt(v, tokens, e), Front(tokens) + [token] + q)
         == ReadAt(EditHere(ReadAt(v, Front(tokens)).value, Last(tokens), e), [token] + q)
    ensures ReadAt(v, Front(tokens) + [token] + q) == ReadAt(ReadAt(v, Front(tokens)).value, [token] + q)
  {
    EditInsideParent(v, tokens, e);
    ReadInside(v, Front(tokens), [token] + q);
    ReadInside(EditAt(v, tokens, e), Front(tokens), [token] + q);
    assert Front(tokens) + ([token] + q) == Front(tokens) + [token] + q;
  }

  /** An edit that moves elements stays on its path exactly when it is at the end of the array. */
  lemma ArrayEditStaysAtTheEnd(v: Json, tokens: seq<string>, e: Edit)
    requires CanEditAt(v, tokens, e) && !e.Put? && MovesElements(v, tokens)
    ensures StaysOnPath(v, tokens, e) <==> AtTheEnd(v, tokens, e)
  {
    if AtTheEnd(v, tokens, e) {
      forall q | !Comparable(tokens, q) ensures ReadAt(EditAt(v, tokens, e), q) == ReadAt(v, q) {
        EndEdit(v, tokens, e, q);
      }
    } else {
      LastPlaceChanges(v, tokens, e);
    }
  }

  lemma LastPlaceChanges(v: Json, tokens: seq<string>, e: Edit)
    requires CanEditAt(v, tokens, e) && !e.Put? && MovesElements(v, tokens) && !AtTheEnd(v, tokens, e)
    ensures !StaysOnPath(v, tokens, e)
  {
    EditInsideParent(v, tokens, e);
    var items := ReadAt(v, Front(tokens)).value.items;
    var last := Text.Decimal(if e.Insert? then |items| else |items| - 1);
    IndexOfDecimal(if e.Insert? then |items| else |items| - 1);
    SiblingAfter(v, tokens, e, last, []);
    var q := Front(tokens) + [last] + [];
    assert q[|q| - 1] == last && |q| == |tokens|;
    assert !Comparable(tokens, q);
    assert Child(EditHere(Arr(items), Last(tokens), e), last).Some? <==> e.Insert?;
    assert Child(Arr(items), last).Some? <==> e.Drop?;
    assert ReadAt(EditAt(v, tokens, e), q) != ReadAt(v, q);
  }

  lemma EndEdit(v: Json, tokens: seq<string>, e: Edit, q: seq<string>)
    requires CanEditAt(v, tokens, e) && !e.Put? && MovesElements(v, tokens) && AtTheEnd(v, tokens, e)
    requires !Comparable(tokens, q)
    ensures ReadAt(EditAt(v, tokens, e), q) == ReadAt(v, q)
  {
    AboveOrBeside(tokens, q);
    if Front(tokens) <= q {
      var m := |Front(tokens)|;
      EditInsideParent(v, tokens, e);
      var parent := ReadAt(v, Front(tokens)).value;
      assert q == Front(tokens) + [q[m]] + q[m + 1..];
      SiblingAfter(v, tokens, e, q[m], q[m + 1..]);
      if IsIndex(q[m]) {
        IndexInjective(q[m], Last(tokens));
      }
      assert Child(EditHere(parent, Last(tokens), e), q[m]) == Child(parent, q[m]);
    } else {
      Frame(v, tokens, e, q);
    }
  }

  // ----- Undoing -----

  function Inverse(v: Json, tokens: seq<string>, e: Edit): Edit
    requires CanEditAt(v, tokens, e)
  {
    WhenEditable(v, tokens, e);
    match e
    case Put(_) => Put(ReadAt(v, tokens).value)
    case Drop => Insert(ReadAt(v, tokens).value)
    case Insert(_) => Drop
  }

  lemma UndoHere(v: Json, key: string, e: Edit, back: Edit)
    requires CanEdit(v, key, e)
    requires match e
             case Insert(_) => back == Drop
             case Put(_) => Child(v, key).Some? && back == Put(Child(v, key).value)
             case Drop => Child(v, key).Some? && back == Insert(Child(v, key).value)
    ensures CanEdit(EditHere(v, key, e), key, back) && EditHere(EditHere(v, key, e), key, back) == v
  {
    match v
    case Arr(items) =>
    case Obj(fields) => assert EditHere(EditHere(v, key, e), key, back).fields == fields;
  }

  /** Every edit is undone by its inverse at the same path. */
  lemma {:induction false} EditUndone(v: Json, tokens: seq<string>, e: Edit)
    requires CanEditAt(v, tokens, e)
    ensures CanEditAt(EditAt(v, tokens, e), tokens, Inverse(v, tokens, e))
    ensures EditAt(EditAt(v, tokens, e), tokens, Inverse(v, tokens, e)) == v
  {
    if tokens != [] {
      var k := tokens[0];
      if |tokens| == 1 && !e.Put? {
        assert ReadAt(v, tokens) == Child(v, k) by { assert tokens[1..] == []; }
        UndoHere(v, k, e, Inverse(v, tokens, e));
      } else {
        var child := Child(v, k).value;
        var after := EditAt(child, tokens[1..], e);
        EditUndone(child, tokens[1..], e);
        ChildrenAfter(v, k, Put(after), k);
        UndoHere(v, k, Put(after), Put(child));
      }
    }
  }

  // ----- Commuting -----

  /** The edit moves no elements: it replaces a value or removes a member of an object. */
  predicate InPlace(v: Json, tokens: seq<string>, e: Edit) {
    CanEditAt(v, tokens, e) && (e.Put? || (e.Drop? && !MovesElements(v, tokens)))
  }

  lemma InPlaceRegion(v: Json, tokens: seq<string>, e: Edit)
    requires InPlace(v, tokens, e)
    ensures Region(v, tokens, e) == tokens
  {
  }

  lemma InPlaceBelow(v: Json, tokens: seq<string>, e: Edit)
    requires InPlace(v, tokens, e) && |tokens| > 1
    ensures Child(v, tokens[0]).Some? && InPlace(Child(v, tokens[0]).value, tokens[1..], e)
  {
    assert Front(tokens)[1..] == Front(tokens[1..]);
  }

  /** The edit of the first token that an edit of a longer path amounts to. */
  function HeadEdit(v: Json, tokens: seq<string>, e: Edit): Edit
    requires tokens != [] && CanEditAt(v, tokens, e)
  {
    if |tokens| == 1 && !e.Put? then e else Put(EditAt(Child(v, tokens[0]).value, tokens[1..], e))
  }

  lemma HeadsCommute(v: Json, j: string, a: Edit, k: string, b: Edit)
    requires j != k && CanEdit(v, j, a) && CanEdit(v, k, b) && !a.Insert? && !b.Insert? && (v.Arr? ==> a.Put? && b.Put?)
    ensures CanEdit(EditHere(v, j, a), k, b) && CanEdit(EditHere(v, k, b), j, a)
    ensures EditHere(EditHere(v, j, a), k, b) == EditHere(EditHere(v, k, b), j, a)
  {
    match v
    case Arr(items) => IndexInjective(j, k);
    case Obj(fields) => assert EditHere(EditHere(v, j, a), k, b).fields == EditHere(EditHere(v, k, b), j, a).fields;
  }

  lemma PutTwice(v: Json, key: string, a: Json, b: Json)
    requires CanEdit(v, key, Put(a))
    ensures CanEdit(EditHere(v, key, Put(a)), key, Put(b))
    ensures EditHere(EditHere(v, key, Put(a)), key, Put(b)) == EditHere(v, key, Put(b))
  {
    if v.Obj? {
      assert v.fields[key := a][key := b] == v.fields[key := b];
    }
  }

  /** Edits in place at incomparable paths can be made in either order, with the same result. */
  lemma {:induction false} EditsCommute(v: Json, p: seq<string>, a: Edit, q: seq<string>, b: Edit)
    requires InPlace(v, p, a) && InPlace(v, q, b) && !Comparable(p, q)
    ensures InPlace(EditAt(v, p, a), q, b) && InPlace(EditAt(v, q, b), p, a)
    ensures EditAt(EditAt(v, p, a), q, b) == EditAt(EditAt(v, q, b), p, a)
  {
    StaysInPlace(v, p, a, q, b);
    StaysInPlace(v, q, b, p, a);
    var x, y := HeadEdit(v, p, a), HeadEdit(v, q, b);
    if p[0] == q[0] {
      assert p == [p[0]] + p[1..] && q == [q[0]] + q[1..];
      assert |p| > 1 && |q| > 1;
      InPlaceBelow(v, p, a);
      InPlaceBelow(v, q, b);
      var child := Child(v, p[0]).value;
      EditsCommute(child, p[1..], a, q[1..], b);
      ChildrenAfter(v, p[0], x, p[0]);
      ChildrenAfter(v, p[0], y, p[0]);
      PutTwice(v, p[0], x.value, EditAt(x.value, q[1..], b));
      PutTwice(v, p[0], y.value, EditAt(y.value, p[1..], a));
    } else {
      HeadFits(v, p, a);
      HeadFits(v, q, b);
      HeadsCommute(v, p[0], x, q[0], y);
      ChildrenAfter(v, p[0], x, q[0]);
      ChildrenAfter(v, q[0], y, p[0]);
    }
  }

  lemma HeadFits(v: Json, tokens: seq<string>, e: Edit)
    requires InPlace(v, tokens, e) && tokens != []
    ensures CanEdit(v, tokens[0], HeadEdit(v, tokens, e)) && !HeadEdit(v, tokens, e).Insert?
    ensures v.Arr? ==> HeadEdit(v, tokens, e).Put?
    ensures EditAt(v, tokens, e) == EditHere(v, tokens[0], HeadEdit(v, tokens, e))
  {
    if |tokens| == 1 {
      assert Front(tokens) == [];
    }
  }

  /** An edit in place leaves an incomparable one possible, and in place. */
  lemma StaysInPlace(v: Json, p: seq<string>, a: Edit, q: seq<string>, b: Edit)
    requires InPlace(v, p, a) && InPlace(v, q, b) && !Comparable(p, q)
    ensures p != [] && q != [] && InPlace(EditAt(v, p, a), q, b)
  {
    InPlaceRegion(v, p, a);
    Frame(v, p, a, q);
    WhenEditable(v, q, b);
    WhenEditable(EditAt(v, p, a), q, b);
    KindKept(v, p, a, q);
  }

  /** An edit in place leaves the parents of incomparable paths arrays or objects, as they were. */
  lemma KindKept(v: Json, p: seq<string>, a: Edit, q: seq<string>)
    requires InPlace(v, p, a) && !Comparable(p, q)
    ensures MovesElements(EditAt(v, p, a), q) <==> MovesElements(v, q)
  {
    InPlaceRegion(v, p, a);
    AboveOrBeside(q, p);
    if Front(q) <= p {
      var rest := p[|Front(q)|..];
      assert p == Front(q) + rest;
      EditInside(v, Front(q), rest, a);
    } else {
      Frame(v, p, a, Front(q));
    }
  }
}
