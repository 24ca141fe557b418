/** The byte order of policy texts (packages/policy/src/lifecycle.ts). */
module Policy {
  import L = Lexicographic

  /** A number in `n` continuation bytes of six bits each, after a leading byte that takes the rest. */
  function Encoded(lead: int, u: nat, n: nat): (r: seq<int>)
    ensures |r| == n + 1
  {
    if n == 0 then [lead + u] else Encoded(lead, u / 0x40, n - 1) + [0x80 + u % 0x40]
  }

  /** The bytes of one character in UTF-8 (section 3 of RFC 3629). */
  function Utf8Char(c: char): seq<int> {
    var u := c as int;
    if u < 0x80 then Encoded(0, u, 0)
    else if u < 0x800 then Encoded(0xC0, u, 1)
    else if u < 0x10000 then Encoded(0xE0, u, 2)
    else Encoded(0xF0, u, 3)
  }

  /** `TextEncoder.encode` of a well-formed string. */
  function Utf8(s: string): seq<int> {
    if s == [] then [] else Utf8Char(s[0]) + Utf8(s[1..])
  }

  function CodePoints(s: string): seq<int> {
    seq(|s|, i requires 0 <= i < |s| => s[i] as int)
  }

  /** `compareUtf8`: compares the bytes up to the shorter length, then the lengths. */
  method CompareUtf8(left: string, right: string) returns (r: int)
    ensures r == L.Compare(Utf8(left), Utf8(right))
  {
    hide Utf8, L.Compare;
    var a, b := Utf8(left), Utf8(right);
    var length := if |a| <= |b| then |a| else |b|;
    var index := 0;
    while index < length
      invariant 0 <= index <= length
      invariant a[..index] == b[..index]
    {
      if a[index] != b[index] {
        L.FirstDifference(a[..index], a[index], a[index + 1..], b[index], b[index + 1..]);
        assert a[..index] + [a[index]] + a[index + 1..] == a;
        assert a[..index] + [b[index]] + b[index + 1..] == b;
        return a[index] - b[index];
      }
      index := index + 1;
    }
    L.OneIsPrefix(a, b, length);
    return |a| - |b|;
  }

  predicate SameSign(x: int, y: int) {
    (x < 0 <==> y < 0) && (x == 0 <==> y == 0)
  }

  /** Dividing by 0x40 keeps the order, and remainders decide between equal quotients. */
  lemma SixBits(u: nat, v: nat)
    requires u < v
    ensures u / 0x40 < v / 0x40 || (u / 0x40 == v / 0x40 && u % 0x40 < v % 0x40)
  {
  }

  ghost predicate FirstSmallerAt(a: seq<int>, b: seq<int>, i: nat) {
    i < |a| && i < |b| && a[..i] == b[..i] && a[i] < b[i]
  }

  lemma {:induction false} EncodedOrder(lead: int, u: nat, v: nat, n: nat) returns (i: nat)
    requires u < v
    ensures FirstSmallerAt(Encoded(lead, u, n), Encoded(lead, v, n), i)
  {
    if n == 0 {
      i := 0;
    } else {
      SixBits(u, v);
      if u / 0x40 == v / 0x40 {
        i := n;
      } else {
        i := EncodedOrder(lead, u / 0x40, v / 0x40, n - 1);
        var a, b := Encoded(lead, u / 0x40, n - 1), Encoded(lead, v / 0x40, n - 1);
        assert (a + [0x80 + u % 0x40])[..i] == a[..i] && (b + [0x80 + v % 0x40])[..i] == b[..i];
      }
    }
  }

  /** The leading byte tells how many bytes follow. */
  lemma LeadingByte(c: char)
    ensures var b := Utf8Char(c)[0];
            match |Utf8Char(c)|
            case 1 => b < 0x80
            case 2 => 0xC0 <= b < 0xE0
            case 3 => 0xE0 <= b < 0xF0
            case _ => 0xF0 <= b
  {
    var u := c as int;
    assert Encoded(0xC0, u, 1)[0] == 0xC0 + u / 0x40;
    assert Encoded(0xE0, u / 0x40, 1)[0] == Encoded(0xE0, u, 2)[0];
    assert Encoded(0xF0, u / 0x40, 2)[0] == Encoded(0xF0, u, 3)[0];
    assert Encoded(0xF0, u / 0x40 / 0x40, 1)[0] == Encoded(0xF0, u / 0x40, 2)[0];
  }

  /** The encodings of two characters first differ, at the same position, in the order of the characters. */
  lemma CharactersDiffer(c: char, d: char) returns (i: nat)
    requires c < d
    ensures FirstSmallerAt(Utf8Char(c), Utf8Char(d), i)
  {
    var u, v := c as int, d as int;
    if |Utf8Char(c)| != |Utf8Char(d)| {
      LeadingByte(c);
      LeadingByte(d);
      i := 0;
    } else {
      var n := |Utf8Char(c)| - 1;
      i := EncodedOrder(if n == 0 then 0 else if n == 1 then 0xC0 else if n == 2 then 0xE0 else 0xF0, u, v, n);
    }
  }

  /** Byte order is the order of the code points (section 1 of RFC 3629). */
  lemma {:induction false} Utf8OrderIsCodePointOrder(s: string, t: string)
    ensures SameSign(L.Compare(Utf8(s), Utf8(t)), L.Compare(CodePoints(s), CodePoints(t)))
  {
    if s == [] || t == [] {
      assert s != [] ==> |Utf8(s)| >= |Utf8Char(s[0])| >= 1;
      assert t != [] ==> |Utf8(t)| >= |Utf8Char(t[0])| >= 1;
    } else if s[0] == t[0] {
      L.CommonPrefix(Utf8Char(s[0]), Utf8(s[1..]), Utf8(t[1..]));
      assert CodePoints(s)[1..] == CodePoints(s[1..]) && CodePoints(t)[1..] == CodePoints(t[1..]);
      Utf8OrderIsCodePointOrder(s[1..], t[1..]);
    } else if s[0] < t[0] {
      SmallerFirst(s, t);
    } else {
      SmallerFirst(t, s);
      L.CompareFlips(Utf8(s), Utf8(t));
      L.CompareFlips(CodePoints(s), CodePoints(t));
    }
  }

  lemma SmallerFirst(s: string, t: string)
    requires s != [] && t != [] && s[0] < t[0]
    ensures L.Compare(Utf8(s), Utf8(t)) < 0 && L.Compare(CodePoints(s), CodePoints(t)) < 0
  {
    hide Utf8Char;
    var i := CharactersDiffer(s[0], t[0]);
    var a, b := Utf8Char(s[0]), Utf8Char(t[0]);
    FirstSmallerDecides(a, Utf8(s[1..]), b, Utf8(t[1..]), i);
  }

  lemma FirstSmallerDecides(a: seq<int>, x: seq<int>, b: seq<int>, y: seq<int>, i: nat)
    requires FirstSmallerAt(a, b, i)
    ensures L.Compare(a + x, b + y) < 0
  {
    L.FirstDifference(a[..i], a[i], a[i + 1..] + x, b[i], b[i + 1..] + y);
    assert a[..i] + [a[i]] + (a[i + 1..] + x) == a + x;
    assert a[..i] + [b[i]] + (b[i + 1..] + y) == b + y;
  }

  predicate TextBefore(s: string, t: string) {
    L.Compare(Utf8(s), Utf8(t)) < 0
  }

  lemma CodePointsInjective(s: string, t: string)
    requires CodePoints(s) == CodePoints(t)
    ensures s == t
  {
    assert |CodePoints(s)| == |s| && |CodePoints(t)| == |t|;
    forall i | 0 <= i < |s| ensures s[i] == t[i] {
      assert CodePoints(s)[i] == CodePoints(t)[i];
    }
  }

  /** The comparison is a strict total order on texts. */
  lemma TotalOrder(s: string, t: string, u: string)
    ensures L.Compare(Utf8(s), Utf8(t)) == 0 <==> s == t
    ensures s == t || TextBefore(s, t) || TextBefore(t, s)
    ensures !(TextBefore(s, t) && TextBefore(t, s))
    ensures TextBefore(s, t) && TextBefore(t, u) ==> TextBefore(s, u)
  {
    Utf8OrderIsCodePointOrder(s, t);
    L.CompareZero(CodePoints(s), CodePoints(t));
    if CodePoints(s) == CodePoints(t) {
      CodePointsInjective(s, t);
    }
    L.CompareFlips(Utf8(s), Utf8(t));
    if TextBefore(s, t) && TextBefore(t, u) {
      L.BeforeTransitive(Utf8(s), Utf8(t), Utf8(u));
    }
  }

  /** Each text comes, by code points, before every later one. */
  ghost predicate StrictlyIncreasing(values: seq<string>) {
    forall i, j :: 0 <= i < j < |values| ==> L.Compare(CodePoints(values[i]), CodePoints(values[j])) < 0
  }

  /** `sortedUnique`: accepts exactly lists of non-empty texts in strictly increasing order. */
  method SortedUnique(values: seq<string>) returns (ok: bool)
    ensures ok <==> (forall v :: v in values ==> v != "") && StrictlyIncreasing(values)
  {
    hide Utf8, CodePoints, L.Compare;
    if "" in values {
      return false;
    }
    var i := 1;
    while i < |values|
      invariant 1 <= i && (values != [] ==> i <= |values|)
      invariant forall k :: 1 <= k < i && k < |values| ==> TextBefore(values[k - 1], values[k])
    {
      var c := CompareUtf8(values[i - 1], values[i]);
      if c >= 0 {
        Utf8OrderIsCodePointOrder(values[i - 1], values[i]);
        return false;
      }
      i := i + 1;
    }
    NeighboursSuffice(values);
    return true;
  }

  lemma NeighboursSuffice(values: seq<string>)
    requires forall k :: 1 <= k < |values| ==> TextBefore(values[k - 1], values[k])
    ensures StrictlyIncreasing(values)
  {
    forall i, j | 0 <= i < j < |values| ensures L.Compare(CodePoints(values[i]), CodePoints(values[j])) < 0 {
      NeighboursChain(values, i, j);
      Utf8OrderIsCodePointOrder(values[i], values[j]);
    }
  }

  lemma {:induction false} NeighboursChain(values: seq<string>, i: nat, j: nat)
    requires forall k :: 1 <= k < |values| ==> TextBefore(values[k - 1], values[k])
    requires i < j < |values|
    ensures TextBefore(values[i], values[j])
    decreases j
  {
    if i < j - 1 {
      NeighboursChain(values, i, j - 1);
      L.BeforeTransitive(Utf8(values[i]), Utf8(values[j - 1]), Utf8(values[j]));
    }
  }
}
