/** How JSON writes and reads finite numbers (section 3.2.2.3 of RFC 8785; packages/domain/src/canonical.ts). */
module Numbers {
  import opened Wrappers
  import opened Text

  /**
   * A finite double, named by its shortest decimal form: plus or minus 0.d1d2...dk times ten to the
   * `point`, where neither d1 nor dk is zero.
   */
  datatype RawNumber = Zero(negative: bool) | Decimals(negative: bool, digits: string, point: int)

  predicate AllDigits(s: string) {
    forall c :: c in s ==> IsDigit(c)
  }

  predicate ValidNumber(n: RawNumber) {
    n.Decimals? ==> n.digits != [] && AllDigits(n.digits) && n.digits[0] != '0' && n.digits[|n.digits| - 1] != '0'
  }

  type Number = n: RawNumber | ValidNumber(n) witness Zero(false)

  function Nulls(n: nat): (s: string)
    ensures |s| == n && forall c :: c in s ==> c == '0'
  {
    if n == 0 then [] else Nulls(n - 1) + ['0']
  }

  function ExponentText(e: int): string {
    "e" + (if e < 0 then "-" + Decimal(-e) else "+" + Decimal(e))
  }

  /** The digits and point of a number, as `Number.prototype.toString` lays them out. */
  function DecimalText(digits: string, n: int): string
    requires digits != []
  {
    var k := |digits|;
    if k <= n <= 21 then digits + Nulls(n - k)
    else if 0 < n <= 21 then digits[..n] + "." + digits[n..]
    else if -6 < n <= 0 then "0." + (Nulls(-n) + digits)
    else if k == 1 then digits + ExponentText(n - 1)
    else digits[..1] + "." + digits[1..] + ExponentText(n - 1)
  }

  /** A number as canonical JSON: both zeros are written `0`. */
  function NumberText(n: Number): string {
    match n
    case Zero(_) => "0"
    case Decimals(negative, digits, point) => (if negative then "-" else "") + DecimalText(digits, point)
  }

  predicate NumberChar(c: char) {
    IsDigit(c) || c == '-' || c == '+' || c == '.' || c == 'e' || c == 'E'
  }

  ghost predicate AllNumberChars(s: string) {
    forall c :: c in s ==> NumberChar(c)
  }

  lemma AppendNumberChars(a: string, b: string)
    requires AllNumberChars(a) && AllNumberChars(b)
    ensures AllNumberChars(a + b)
  {
  }

  lemma DecimalTextChars(ds: string, n: int)
    requires ds != [] && AllDigits(ds)
    ensures AllNumberChars(DecimalText(ds, n))
    ensures DecimalText(ds, n) != [] && IsDigit(DecimalText(ds, n)[0])
  {
    var k := |ds|;
    assert IsDigit(ds[0]) && ds[..1][0] == ds[0] && AllNumberChars(ds);
    ExponentChars(n - 1);
    hide AllNumberChars, ExponentText;
    if k <= n <= 21 {
      NullsChars(n - k);
      AppendNumberChars(ds, Nulls(n - k));
    } else if 0 < n <= 21 {
      SplitChars(ds, n);
      assert ds[..n][0] == ds[0];
    } else if -6 < n <= 0 {
      NullsChars(-n);
      AppendNumberChars(Nulls(-n), ds);
      PointChars();
      AppendNumberChars("0.", Nulls(-n) + ds);
    } else if k == 1 {
      AppendNumberChars(ds, ExponentText(n - 1));
    } else {
      SplitChars(ds, 1);
      AppendNumberChars(ds[..1] + "." + ds[1..], ExponentText(n - 1));
    }
  }

  lemma PointChars()
    ensures AllNumberChars(".") && AllNumberChars("0.")
  {
  }

  lemma NullsChars(n: nat)
    ensures AllNumberChars(Nulls(n))
  {
  }

  lemma ExponentChars(e: int)
    ensures AllNumberChars(ExponentText(e))
  {
  }

  lemma SplitChars(ds: string, n: nat)
    requires n <= |ds| && AllDigits(ds)
    ensures AllNumberChars(ds[..n] + "." + ds[n..])
  {
  }

  lemma NumberTextChars(n: Number)
    ensures NumberText(n) != [] && (NumberText(n)[0] == '-' || IsDigit(NumberText(n)[0]))
    ensures forall c :: c in NumberText(n) ==> NumberChar(c)
  {
    match n
    case Zero(_) =>
    case Decimals(negative, ds, point) =>
      hide DecimalText;
      DecimalTextChars(ds, point);
  }

  // ----- Reading -----

  /** The position of the first `c`, or the length when there is none. */
  function IndexOf(s: string, c: char): (i: nat)
    ensures i <= |s| && c !in s[..i]
    ensures i < |s| ==> s[i] == c
  {
    if s == [] || s[0] == c then 0
    else
      var i := 1 + IndexOf(s[1..], c);
      assert s[..i] == [s[0]] + s[1..][..i - 1];
      i
  }

  lemma {:induction false} IndexOfSplit(a: string, c: char, b: string)
    requires c !in a
    ensures IndexOf(a + [c] + b, c) == |a|
  {
    var s := a + [c] + b;
    if a != [] {
      assert s[1..] == a[1..] + [c] + b;
      IndexOfSplit(a[1..], c, b);
    }
  }

  lemma IndexOfNone(a: string, c: char)
    requires c !in a
    ensures IndexOf(a, c) == |a|
  {
  }

  function WithoutLeading(ds: string): string {
    if ds != [] && ds[0] == '0' then WithoutLeading(ds[1..]) else ds
  }

  function WithoutTrailing(ds: string): string {
    if ds != [] && ds[|ds| - 1] == '0' then WithoutTrailing(ds[..|ds| - 1]) else ds
  }

  lemma {:induction false} LeadingKeepsDigits(ds: string)
    requires AllDigits(ds)
    ensures AllDigits(WithoutLeading(ds)) && |WithoutLeading(ds)| <= |ds|
    ensures WithoutLeading(ds) != [] ==> WithoutLeading(ds)[0] != '0'
  {
    if ds != [] && ds[0] == '0' {
      LeadingKeepsDigits(ds[1..]);
    }
  }

  lemma {:induction false} TrailingKeepsDigits(ds: string)
    requires AllDigits(ds) && ds != [] && ds[0] != '0'
    ensures AllDigits(WithoutTrailing(ds)) && WithoutTrailing(ds) != []
    ensures WithoutTrailing(ds)[0] != '0' && WithoutTrailing(ds)[|WithoutTrailing(ds)| - 1] != '0'
  {
    if ds[|ds| - 1] == '0' {
      TrailingKeepsDigits(ds[..|ds| - 1]);
    }
  }

  /** The number 0.ds times ten to the point, in its shortest form. */
  function Normal(negative: bool, ds: string, point: int): Number
    requires AllDigits(ds)
  {
    LeadingKeepsDigits(ds);
    var stripped := WithoutLeading(ds);
    if stripped == [] then Zero(negative)
    else
      TrailingKeepsDigits(stripped);
      Decimals(negative, WithoutTrailing(stripped), point - (|ds| - |stripped|))
  }

  function ReadExponent(s: string): Option<int> {
    if s == [] then Some(0)
    else
      var digits := if |s| > 1 && (s[1] == '-' || s[1] == '+') then s[2..] else s[1..];
      if digits == [] || !AllDigits(digits) then None
      else if |s| > 1 && s[1] == '-' then Some(-(Text.Number(digits) as int))
      else Some(Text.Number(digits))
  }

  /** Reads an unsigned number: digits, an optional fraction and an optional exponent. */
  function ReadUnsigned(negative: bool, s: string): Option<Number> {
    var e := IndexOf(s, 'e');
    var mantissa := s[..e];
    var exponent := ReadExponent(s[e..]);
    var dot := IndexOf(mantissa, '.');
    var whole := mantissa[..dot];
    var fraction := if dot < |mantissa| then mantissa[dot + 1..] else [];
    if exponent.None? || whole == [] || !AllDigits(whole) || !AllDigits(fraction) then None
    else Some(Normal(negative, whole + fraction, |whole| + exponent.value))
  }

  function ReadNumber(s: string): Option<Number> {
    if s != [] && s[0] == '-' then ReadUnsigned(true, s[1..]) else ReadUnsigned(false, s)
  }

  // ----- Reading back what was written -----

  lemma {:induction false} LeadingNulls(z: nat, ds: string)
    requires ds != [] && ds[0] != '0'
    ensures WithoutLeading(Nulls(z) + ds) == ds
  {
    var s := Nulls(z) + ds;
    if z == 0 {
      assert s == ds;
    } else {
      assert Nulls(z)[0] in Nulls(z);
      NullsTail(z);
      assert s[1..] == Nulls(z - 1) + ds;
      LeadingNulls(z - 1, ds);
    }
  }

  lemma {:induction false} NullsTail(z: nat)
    requires z > 0
    ensures Nulls(z)[1..] == Nulls(z - 1)
  {
    forall i | 0 <= i < z - 1 ensures Nulls(z)[1..][i] == Nulls(z - 1)[i] {
      assert Nulls(z)[i + 1] in Nulls(z) && Nulls(z - 1)[i] in Nulls(z - 1);
    }
  }

  lemma {:induction false} TrailingNulls(ds: string, z: nat)
    requires ds != [] && ds[|ds| - 1] != '0'
    ensures WithoutTrailing(ds + Nulls(z)) == ds
  {
    var s := ds + Nulls(z);
    if z == 0 {
      assert s == ds;
    } else {
      assert s[|s| - 1] == '0' && s[..|s| - 1] == ds + Nulls(z - 1);
      TrailingNulls(ds, z - 1);
    }
  }

  /** Zeros around the digits do not change the number that is read. */
  lemma NormalTrailing(negative: bool, ds: string, after: nat, point: int)
    requires ValidNumber(Decimals(negative, ds, point))
    ensures AllDigits(ds + Nulls(after))
    ensures Normal(negative, ds + Nulls(after), point) == Decimals(negative, ds, point)
  {
    TrailingNulls(ds, after);
    assert WithoutLeading(ds + Nulls(after)) == ds + Nulls(after);
  }

  lemma NormalLeading(negative: bool, before: nat, ds: string, point: int)
    requires ValidNumber(Decimals(negative, ds, point))
    ensures AllDigits(Nulls(before) + ds)
    ensures Normal(negative, Nulls(before) + ds, point + before) == Decimals(negative, ds, point)
  {
    LeadingNulls(before, ds);
    assert WithoutTrailing(ds) == ds;
  }

  lemma NormalPlain(negative: bool, ds: string, point: int)
    requires ValidNumber(Decimals(negative, ds, point))
    ensures Normal(negative, ds, point) == Decimals(negative, ds, point)
  {
    assert WithoutTrailing(ds) == ds && WithoutLeading(ds) == ds;
  }

  lemma AppendNothing(s: string)
    ensures s + [] == s
  {
  }

  lemma ReadExponentText(e: int)
    ensures ReadExponent(ExponentText(e)) == Some(e)
  {
    var n := if e < 0 then -e else e;
    NumberOfDecimal(n);
    assert ExponentText(e)[2..] == Decimal(n);
  }

  /** A mantissa without fraction, then nothing or an exponent. */
  lemma ReadWhole(negative: bool, whole: string, e: int, suffix: string)
    requires whole != [] && AllDigits(whole)
    requires (suffix == [] && e == 0) || suffix == ExponentText(e)
    ensures ReadUnsigned(negative, whole + suffix) == Some(Normal(negative, whole, |whole| + e))
  {
    var s := whole + suffix;
    SplitExponent(whole, e, suffix);
    IndexOfNone(whole, '.');
    assert whole + [] == whole;
  }

  lemma ReadFraction(negative: bool, whole: string, fraction: string, e: int, suffix: string)
    requires whole != [] && AllDigits(whole) && AllDigits(fraction)
    requires (suffix == [] && e == 0) || suffix == ExponentText(e)
    requires AllDigits(whole + fraction)
    ensures ReadUnsigned(negative, whole + "." + fraction + suffix) == Some(Normal(negative, whole + fraction, |whole| + e))
  {
    var mantissa := whole + "." + fraction;
    SplitExponent(mantissa, e, suffix);
    IndexOfSplit(whole, '.', fraction);
    assert mantissa[..|whole|] == whole && mantissa[|whole| + 1..] == fraction;
  }

  lemma SplitExponent(mantissa: string, e: int, suffix: string)
    requires 'e' !in mantissa
    requires (suffix == [] && e == 0) || suffix == ExponentText(e)
    ensures var s := mantissa + suffix;
            IndexOf(s, 'e') == |mantissa| && s[..|mantissa|] == mantissa && ReadExponent(s[|mantissa|..]) == Some(e)
  {
    var s := mantissa + suffix;
    assert s[|mantissa|..] == suffix;
    if suffix == [] {
      assert s == mantissa;
      IndexOfNone(mantissa, 'e');
    } else {
      ReadExponentText(e);
      assert s == mantissa + ['e'] + suffix[1..];
      IndexOfSplit(mantissa, 'e', suffix[1..]);
    }
  }

  lemma ReadInteger(negative: bool, ds: string, n: int)
    requires ValidNumber(Decimals(negative, ds, n)) && |ds| <= n
    ensures ReadUnsigned(negative, ds + Nulls(n - |ds|)) == Some(Decimals(negative, ds, n))
  {
    hide ReadUnsigned, Normal, Nulls;
    var s := ds + Nulls(n - |ds|);
    NormalTrailing(negative, ds, n - |ds|, n);
    ReadWhole(negative, s, 0, []);
    AppendNothing(s);
  }

  lemma ReadBelowOne(negative: bool, ds: string, n: int)
    requires ValidNumber(Decimals(negative, ds, n)) && n <= 0
    ensures ReadUnsigned(negative, "0." + (Nulls(-n) + ds)) == Some(Decimals(negative, ds, n))
  {
    hide ReadUnsigned, Normal, Nulls;
    LeadingZero(-n, ds);
    NormalLeading(negative, 1 - n, ds, n);
    NormalLeading(negative, -n, ds, n);
    hide AllDigits;
    assert AllDigits("0") by { DigitZero(); }
    var s := Nulls(-n) + ds;
    ReadFraction(negative, "0", s, 0, []);
    AppendNothing("0." + s);
    assert "0" + "." + s == "0." + s;
  }

  lemma DigitZero()
    ensures AllDigits("0")
  {
  }

  lemma LeadingZero(z: nat, ds: string)
    ensures "0" + (Nulls(z) + ds) == Nulls(z + 1) + ds
  {
    NullsTail(z + 1);
    assert Nulls(z + 1)[0] in Nulls(z + 1);
    assert Nulls(z + 1) == "0" + Nulls(z);
  }

  lemma SplitDigits(ds: string, n: nat)
    requires AllDigits(ds) && n <= |ds|
    ensures AllDigits(ds[..n]) && AllDigits(ds[n..]) && ds[..n] + ds[n..] == ds
  {
  }

  lemma ReadSplit(negative: bool, ds: string, n: int, point: nat, e: int, suffix: string)
    requires ValidNumber(Decimals(negative, ds, n)) && 0 < point < |ds| && point + e == n
    requires (suffix == [] && e == 0) || suffix == ExponentText(e)
    ensures ReadUnsigned(negative, ds[..point] + "." + ds[point..] + suffix) == Some(Decimals(negative, ds, n))
  {
    hide ReadUnsigned, Normal, ExponentText;
    NormalPlain(negative, ds, n);
    SplitDigits(ds, point);
    var whole, fraction := ds[..point], ds[point..];
    hide AllDigits;
    ReadFraction(negative, whole, fraction, e, suffix);
  }

  lemma ReadOneDigit(negative: bool, ds: string, n: int)
    requires ValidNumber(Decimals(negative, ds, n)) && |ds| == 1
    ensures ReadUnsigned(negative, ds + ExponentText(n - 1)) == Some(Decimals(negative, ds, n))
  {
    hide ReadUnsigned, Normal, ExponentText;
    NormalPlain(negative, ds, n);
    ReadWhole(negative, ds, n - 1, ExponentText(n - 1));
  }

  lemma ReadDecimalText(negative: bool, ds: string, n: int)
    requires ValidNumber(Decimals(negative, ds, n))
    ensures ReadUnsigned(negative, DecimalText(ds, n)) == Some(Decimals(negative, ds, n))
  {
    hide ReadUnsigned, ExponentText;
    if |ds| <= n <= 21 {
      ReadInteger(negative, ds, n);
    } else if 0 < n <= 21 {
      ReadSplit(negative, ds, n, n, 0, []);
      AppendNothing(ds[..n] + "." + ds[n..]);
    } else if -6 < n <= 0 {
      ReadBelowOne(negative, ds, n);
    } else if |ds| == 1 {
      ReadOneDigit(negative, ds, n);
    } else {
      ReadSplit(negative, ds, n, 1, n - 1, ExponentText(n - 1));
    }
  }

  /** Zero without its sign. */
  function Unsigned(n: Number): Number {
    if n.Zero? then Zero(false) else n
  }

  /** Reading a written number gives it back, but for the sign of zero. */
  lemma ReadBack(n: Number)
    ensures ReadNumber(NumberText(n)) == Some(Unsigned(n))
  {
    match n
    case Zero(_) =>
      ReadWhole(false, "0", 0, []);
      assert "0" + [] == "0";
      assert WithoutLeading("0") == WithoutLeading([]);
    case Decimals(negative, ds, point) =>
      ReadDecimalText(negative, ds, point);
      DecimalTextChars(ds, point);
      ReadSigned(negative, DecimalText(ds, point), n);
  }

  lemma ReadSigned(negative: bool, text: string, n: Number)
    requires text != [] && text[0] != '-' && ReadUnsigned(negative, text) == Some(n)
    ensures ReadNumber((if negative then "-" else "") + text) == Some(n)
  {
    hide ReadUnsigned;
    assert ("-" + text)[1..] == text;
    assert "" + text == text;
  }
}
