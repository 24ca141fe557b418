/** Lists without repetition, as `new Set(list).size === list.length` finds them. */
module Lists {
  predicate Distinct<T(==)>(xs: seq<T>) {
    forall i, j :: 0 <= i < j < |xs| ==> xs[i] != xs[j]
  }

  function Elements<T(==)>(xs: seq<T>): set<T> {
    set x | x in xs
  }

  lemma {:induction false} DistinctCount<T>(xs: seq<T>)
    requires Distinct(xs)
    ensures |Elements(xs)| == |xs|
  {
    if xs != [] {
      var rest := xs[1..];
      DistinctCount(rest);
      assert xs == [xs[0]] + rest;
      assert Elements(xs) == {xs[0]} + Elements(rest);
    }
  }

  lemma {:induction false} CountDistinct<T>(xs: seq<T>)
    ensures |Elements(xs)| <= |xs|
    ensures |Elements(xs)| == |xs| ==> Distinct(xs)
  {
    if xs != [] {
      var rest := xs[1..];
      CountDistinct(rest);
      assert xs == [xs[0]] + rest;
      assert Elements(xs) == {xs[0]} + Elements(rest);
      if |Elements(xs)| == |xs| {
        assert xs[0] !in Elements(rest);
      }
    }
  }
}
