/** Lexicographic comparison of sequences of code units. */
module Lexicographic {

  /** Negative, zero or positive as `a` comes before, equals or comes after `b`. */
  function Compare(a: seq<int>, b: seq<int>): int {
    if a == [] || b == [] then |a| - |b|
    else if a[0] != b[0] then a[0] - b[0]
    else Compare(a[1..], b[1..])
  }

  predicate Before(a: seq<int>, b: seq<int>) {
    Compare(a, b) < 0
  }

  lemma {:induction false} CompareZero(a: seq<int>, b: seq<int>)
    ensures Compare(a, b) == 0 <==> a == b
  {
    if a != [] && b != [] && a[0] == b[0] {
      CompareZero(a[1..], b[1..]);
      assert a == [a[0]] + a[1..] && b == [b[0]] + b[1..];
    }
  }

  lemma {:induction false} CompareFlips(a: seq<int>, b: seq<int>)
    ensures Compare(a, b) == -Compare(b, a)
  {
    if a != [] && b != [] && a[0] == b[0] {
      CompareFlips(a[1..], b[1..]);
    }
  }

  lemma {:induction false} BeforeTransitive(a: seq<int>, b: seq<int>, c: seq<int>)
    requires Before(a, b) && Before(b, c)
    ensures Before(a, c)
  {
    if a != [] && b != [] && c != [] && a[0] == b[0] == c[0] {
      BeforeTransitive(a[1..], b[1..], c[1..]);
    }
  }

  /** A common prefix does not matter. */
  lemma {:induction false} CommonPrefix(p: seq<int>, a: seq<int>, b: seq<int>)
    ensures Compare(p + a, p + b) == Compare(a, b)
  {
    if p == [] {
      assert p + a == a && p + b == b;
    } else {
      assert (p + a)[1..] == p[1..] + a && (p + b)[1..] == p[1..] + b;
      CommonPrefix(p[1..], a, b);
    }
  }

  /** The first difference decides, whatever follows. */
  lemma FirstDifference(p: seq<int>, x: int, a: seq<int>, y: int, b: seq<int>)
    requires x != y
    ensures Compare(p + [x] + a, p + [y] + b) == x - y
  {
    assert p + [x] + a == p + ([x] + a) && p + [y] + b == p + ([y] + b);
    CommonPrefix(p, [x] + a, [y] + b);
  }

  lemma OneIsPrefix(a: seq<int>, b: seq<int>, n: nat)
    requires n <= |a| && n <= |b| && (n == |a| || n == |b|) && a[..n] == b[..n]
    ensures Compare(a, b) == |a| - |b|
  {
    CommonPrefix(a[..n], a[n..], b[n..]);
    assert a == a[..n] + a[n..] && b == a[..n] + b[n..];
  }
}
