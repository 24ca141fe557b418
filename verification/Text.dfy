/** Text helpers: blankness as `String.prototype.trim` sees it, and decimal numerals. */
module Text {

  predicate IsSpace(c: char) {
    var u := c as int;
    || 0x09 <= u <= 0x0D || u == 0x20 || u == 0xA0 || u == 0x1680 || 0x2000 <= u <= 0x200A
    || u == 0x2028 || u == 0x2029 || u == 0x202F || u == 0x205F || u == 0x3000 || u == 0xFEFF
  }

  /** Nothing is left of the text once it is trimmed. */
  predicate IsBlank(s: string) {
    forall c :: c in s ==> IsSpace(c)
  }

  predicate IsDigit(c: char) {
    '0' <= c <= '9'
  }

  function Digit(n: nat): char
    requires n < 10
  {
    '0' + n as char
  }

  /** The decimal numeral of a number, without leading zeros. */
  function Decimal(n: nat): (s: string)
    ensures s != [] && forall c :: c in s ==> IsDigit(c)
    ensures |s| > 1 ==> s[0] != '0'
  {
    if n < 10 then [Digit(n)] else Decimal(n / 10) + [Digit(n % 10)]
  }

  /** The number a string of digits denotes. */
  function Number(s: string): nat
    requires forall c :: c in s ==> IsDigit(c)
  {
    if s == [] then 0
    else
      assert IsDigit(s[|s| - 1]);
      10 * Number(s[..|s| - 1]) + (s[|s| - 1] as int - '0' as int)
  }

  lemma {:induction false} NumberOfDecimal(n: nat)
    ensures Number(Decimal(n)) == n
  {
    if n >= 10 {
      NumberOfDecimal(n / 10);
      var s := Decimal(n / 10);
      assert (s + [Digit(n % 10)])[..|s|] == s;
    }
  }

  /** A numeral without leading zeros is the one its number is written as. */
  lemma {:induction false} DecimalOfNumber(s: string)
    requires s != [] && forall c :: c in s ==> IsDigit(c)
    requires |s| > 1 ==> s[0] != '0'
    ensures Decimal(Number(s)) == s
    ensures |s| > 1 ==> Number(s) >= 10
  {
    var front, last := s[..|s| - 1], s[|s| - 1];
    assert s == front + [last] && IsDigit(last);
    if |s| == 1 {
      assert front == [] && Number(front) == 0;
    } else {
      DecimalOfNumber(front);
      assert front[0] == s[0] && IsDigit(front[0]);
      if |front| == 1 {
        assert front[..0] == [] && Number(front[..0]) == 0;
      }
    }
  }
}
