/** The one text of canonical JSON: strings, members and numbers (sections 3.2.2 and 3.2.3 of RFC 8785). */
module CanonicalText {
  import opened Wrappers
  import opened Text
  import opened Numbers
  import opened Canonical
  import Lexicographic

  // ----- Strings -----

  predicate UpperHex(c: char) {
    'A' <= c <= 'F'
  }

  /** The hexadecimal digits of escapes are in lower case. */
  predicate LowerEscapes(s: string) {
    if s == [] then true
    else if s[0] != '\\' || |s| < 2 then LowerEscapes(s[1..])
    else if s[1] == 'u' && |s| >= 6 then (forall i :: 2 <= i < 6 ==> !UpperHex(s[i])) && LowerEscapes(s[6..])
    else LowerEscapes(s[2..])
  }

  lemma LowerDigit(c: char)
    requires HexValue(c).Some? && !UpperHex(c)
    ensures HexValue(c).value < 16 && HexDigit(HexValue(c).value) == c
  {
  }

  lemma ShortestLetter(s: string, c: char)
    requires s != [] && ReadEscape(s) == Some((c, 1))
    ensures |Escape(c)| <= 2
    ensures |Escape(c)| == 2 ==> "\\" + s[..1] == Escape(c)
  {
    assert s[..1] == [s[0]];
  }

  lemma ShortestHex(s: string, c: char)
    requires |s| >= 5 && ReadEscape(s) == Some((c, 5)) && s[0] == 'u'
    ensures |Escape(c)| <= 6
    ensures |Escape(c)| == 6 && (forall i :: 1 <= i < 5 ==> !UpperHex(s[i])) ==> "\\" + s[..5] == Escape(c)
  {
    var u := c as int;
    if |Escape(c)| == 6 && (forall i :: 1 <= i < 5 ==> !UpperHex(s[i])) {
      assert s[..5] == [s[0], s[1], s[2], s[3], s[4]];
      LowerDigit(s[1]);
      LowerDigit(s[2]);
      LowerDigit(s[3]);
      LowerDigit(s[4]);
      hide HexValue, HexDigit;
      assert HexValue(s[1]) == Some(0) && HexValue(s[2]) == Some(0) && HexValue(s[3]) == Some(u / 16) && HexValue(s[4]) == Some(u % 16);
      assert HexDigit(0) == '0' by { FirstDigit(); }
    }
  }

  lemma FirstDigit()
    ensures HexDigit(0) == '0'
  {
  }

  lemma EscapeLength(s: string)
    requires s != [] && ReadEscape(s).Some?
    ensures ReadEscape(s).value.1 == if s[0] == 'u' then 5 else 1
  {
  }

  /**
   * A text that is read as a string up to its closing quote is at least as long as the one that is
   * written; if it is no longer and its hexadecimal digits are in lower case, it is the same.
   */
  lemma {:induction false} ShortestBody(s: string, t: string, rest: string)
    requires ReadString(s) == Some((t, rest))
    ensures |rest| <= |s| && rest == s[|s| - |rest|..]
    ensures |EscapeAll(t) + "\""| <= |s| - |rest|
    ensures |EscapeAll(t) + "\""| == |s| - |rest| && LowerEscapes(s[..|s| - |rest|]) ==> s[..|s| - |rest|] == EscapeAll(t) + "\""
  {
    hide Escape, ReadEscape, LowerEscapes;
    if s[0] == '\"' {
      assert s[..1] == "\"";
    } else {
      hide ReadString;
      var m := FirstRead(s, t, rest);
      ShortestBody(s[m..], t[1..], rest);
      FirstEscape(s, t[0], m, |s| - |rest|);
      Joined(s, Escape(t[0]), EscapeAll(t[1..]) + "\"", m, |s| - |rest|);
      assert EscapeAll(t) + "\"" == Escape(t[0]) + (EscapeAll(t[1..]) + "\"");
    }
  }

  /** The first character that is read, and how much of the text it takes. */
  lemma FirstRead(s: string, t: string, rest: string) returns (m: nat)
    requires ReadString(s) == Some((t, rest)) && s[0] != '\"'
    ensures t != [] && m <= |s| && ReadString(s[m..]) == Some((t[1..], rest))
    ensures if s[0] == '\\' then |s| >= 2 && m >= 2 && ReadEscape(s[1..]) == Some((t[0], m - 1))
            else s[0] as int >= 0x20 && t[0] == s[0] && m == 1
  {
    hide ReadEscape;
    m := if s[0] == '\\' then 1 + ReadEscape(s[1..]).value.1 else 1;
  }

  lemma Joined(s: string, a: string, b: string, m: nat, n: nat)
    requires m <= n <= |s| && |a| <= m && |b| <= n - m
    ensures s[m..][..n - m] == s[m..n] && s[m..][n - m..] == s[n..]
    ensures |a + b| == n ==> |a| == m && |b| == n - m
    ensures s[..m] == a && s[m..n] == b ==> s[..n] == a + b
  {
    assert s[..n] == s[..m] + s[m..n];
  }

  /** The first character of a string, escaped or plain, with the rest of its text. */
  lemma FirstEscape(s: string, c: char, m: nat, n: nat)
    requires s != [] && s[0] != '\"' && m <= n <= |s|
    requires if s[0] == '\\' then |s| >= 2 && ReadEscape(s[1..]) == Some((c, m - 1)) && m >= 2 else s[0] as int >= 0x20 && c == s[0] && m == 1
    ensures |Escape(c)| <= m
    ensures LowerEscapes(s[..n]) ==> LowerEscapes(s[m..n])
    ensures |Escape(c)| == m && LowerEscapes(s[..n]) ==> s[..m] == Escape(c)
  {
    hide Escape, ReadEscape;
    if s[0] == '\\' {
      EscapeLength(s[1..]);
      assert s[..m] == "\\" + s[1..][..m - 1];
      if m == 2 {
        ShortestLetter(s[1..], c);
        assert s[..n][2..] == s[2..n];
      } else {
        ShortestHex(s[1..], c);
        assert s[..n][6..] == s[6..n];
        assert LowerEscapes(s[..n]) ==> forall i :: 1 <= i < 5 ==> !UpperHex(s[1..][i]);
      }
    } else {
      PlainEscape(c);
      assert s[..n][1..] == s[1..n] && s[..1] == [c];
    }
  }

  lemma PlainEscape(c: char)
    requires c as int >= 0x20 && c != '\"' && c != '\\'
    ensures Escape(c) == [c]
  {
  }

  /**
   * Of all texts that are read as a string, the one that is written is the shortest; and it is the
   * only one of its length whose hexadecimal digits are in lower case.
   */
  lemma QuoteIsShortest(t: string, text: string)
    requires text != [] && text[0] == '\"' && ReadString(text[1..]) == Some((t, []))
    ensures |Quote(t)| <= |text|
    ensures |text| == |Quote(t)| && LowerEscapes(text) ==> text == Quote(t)
  {
    var s, body := text[1..], EscapeAll(t) + "\"";
    ShortestBody(s, t, []);
    assert LowerEscapes(text) ==> LowerEscapes(s);
    hide EscapeAll, LowerEscapes, ReadString;
    assert s[..|s|] == s && text == "\"" + s;
    assert Quote(t) == "\"" + body;
  }

  lemma LowerOne(c: char, tail: string)
    requires LowerEscapes(tail)
    ensures LowerEscapes(Escape(c) + tail)
  {
    var s := Escape(c) + tail;
    assert s[|Escape(c)|..] == tail;
    if |Escape(c)| == 6 {
      assert forall i :: 2 <= i < 6 ==> s[i] == Escape(c)[i] && !UpperHex(Escape(c)[i]);
    }
  }

  lemma {:induction false} LowerAll(t: string)
    ensures LowerEscapes(EscapeAll(t) + "\"")
  {
    if t == [] {
      assert EscapeAll(t) + "\"" == "\"";
    } else {
      LowerAll(t[1..]);
      LowerOne(t[0], EscapeAll(t[1..]) + "\"");
      assert EscapeAll(t) + "\"" == Escape(t[0]) + (EscapeAll(t[1..]) + "\"");
    }
  }

  /** The text that is written is read as the string, and its hexadecimal digits are in lower case. */
  lemma QuoteIsLower(t: string)
    ensures Quote(t)[0] == '\"' && ReadString(Quote(t)[1..]) == Some((t, [])) && LowerEscapes(Quote(t))
  {
    ParseQuoted(t, []);
    LowerAll(t);
    assert Quote(t) + [] == Quote(t);
    assert Quote(t)[1..] == EscapeAll(t) + "\"";
  }

  // ----- Members -----

  /** By UTF-16 code units: the characters beyond U+FFFF stand between U+D7FF and U+E000. */
  predicate CharBefore(c: char, d: char) {
    if c as int < 0x10000 && d as int < 0x10000 then c < d
    else if c as int < 0x10000 then c as int < 0xD800
    else if d as int < 0x10000 then d as int >= 0xE000
    else c < d
  }

  /** A key is before another by the first character in which they differ, or as its proper prefix. */
  predicate ComesBefore(a: string, b: string) {
    if a == [] || b == [] then a == [] && b != []
    else if a[0] == b[0] then ComesBefore(a[1..], b[1..])
    else CharBefore(a[0], b[0])
  }

  lemma UnitsOrder(c: char, d: char, s: seq<int>, t: seq<int>)
    requires c != d
    ensures Lexicographic.Before(Units(c) + s, Units(d) + t) <==> CharBefore(c, d)
  {
    var x, y := Units(c), Units(d);
    if x[0] != y[0] {
      assert (x + s)[0] == x[0] && (y + t)[0] == y[0];
    } else {
      assert x == [x[0], x[1]] && y == [x[0], y[1]] && x[1] != y[1];
      Lexicographic.FirstDifference([x[0]], x[1], s, y[1], t);
      assert x + s == [x[0]] + [x[1]] + s && y + t == [x[0]] + [y[1]] + t;
    }
  }

  lemma {:induction false} KeyOrder(a: string, b: string)
    ensures KeyBefore(a, b) <==> ComesBefore(a, b)
  {
    if a != [] && b != [] {
      if a[0] == b[0] {
        KeyOrder(a[1..], b[1..]);
        Lexicographic.CommonPrefix(Units(a[0]), Utf16(a[1..]), Utf16(b[1..]));
      } else {
        UnitsOrder(a[0], b[0], Utf16(a[1..]), Utf16(b[1..]));
      }
    } else if b != [] {
      assert |Utf16(b)| > 0;
    } else if a != [] {
      assert |Utf16(a)| > 0;
    }
  }

  /** The keys of an object in the order in which a reader meets them, after its brace. */
  function KeysMet(s: string): seq<string>
    decreases |s|
  {
    if s == [] || s[0] != '\"' then []
    else
      var key := ReadString(s[1..]);
      if key.None? || key.value.1 == [] || key.value.1[0] != ':' then []
      else
        var value := ParseValue(key.value.1[1..]);
        if value.None? || value.value.1 == [] || value.value.1[0] != ',' then [key.value.0]
        else [key.value.0] + KeysMet(value.value.1[1..])
  }

  lemma OneKeyMet(k: string, text: string, value: Json, tail: string)
    requires ParseValue(text + tail) == Some((value, tail)) && tail != []
    ensures KeysMet(Quote(k) + (":" + (text + tail))) == [k] + (if tail[0] == ',' then KeysMet(tail[1..]) else [])
  {
    ParseQuoted(k, ":" + (text + tail));
    hide ParseValue, ReadString, Quote;
    assert (":" + (text + tail))[1..] == text + tail;
  }

  lemma {:induction false} MembersMet(v: Json, keys: seq<string>, rest: string)
    requires v.Obj? && keys != [] && forall k :: k in keys ==> k in v.fields
    ensures KeysMet(SerializeMembers(v, keys) + "}" + rest) == keys
    decreases |keys|
  {
    hide Serialize, SerializeMembers, ParseValue, Quote, KeysMet;
    var value := v.fields[keys[0]];
    var more := if |keys| == 1 then "" else SerializeMembers(v, keys[1..]) + "}" + rest;
    var tail := if |keys| == 1 then "}" + rest else "," + more;
    MembersText(v, keys, rest);
    ParseSerialized(value, tail);
    OneKeyMet(keys[0], Serialize(value), Normalize(value), tail);
    if |keys| > 1 {
      assert tail[1..] == more;
      MembersMet(v, keys[1..], rest);
    }
  }

  lemma ObjectText(fields: map<string, Json>)
    ensures Serialize(Obj(fields))[1..] == SerializeMembers(Obj(fields), SortedKeys(fields.Keys)) + "}"
  {
    var body := SerializeMembers(Obj(fields), SortedKeys(fields.Keys)) + "}";
    assert Serialize(Obj(fields)) == "{" + body;
    hide Serialize, SerializeMembers, SortedKeys;
    assert ("{" + body)[1..] == body;
  }

  /** A reader of a written object meets each key once, in the order of the code units. */
  lemma KeysAreWrittenInOrder(fields: map<string, Json>)
    ensures Serialize(Obj(fields)) != []
    ensures var keys := KeysMet(Serialize(Obj(fields))[1..]);
            && (forall k :: k in keys <==> k in fields)
            && forall i, j :: 0 <= i < j < |keys| ==> ComesBefore(keys[i], keys[j])
  {
    FirstChar(Obj(fields));
    hide Serialize, SerializeMembers, SortedKeys, KeyBefore, ComesBefore, KeysMet;
    var v, keys := Obj(fields), SortedKeys(fields.Keys);
    ObjectText(fields);
    SortedKeysIncrease(fields.Keys);
    forall i, j | 0 <= i < j < |keys| ensures ComesBefore(keys[i], keys[j]) {
      KeyOrder(keys[i], keys[j]);
    }
    if keys == [] {
      EmptyMembers(v);
    } else {
      MembersMet(v, keys, []);
      assert SerializeMembers(v, keys) + "}" + [] == SerializeMembers(v, keys) + "}";
    }
  }

  lemma EmptyMembers(v: Json)
    requires v.Obj?
    ensures KeysMet(SerializeMembers(v, []) + "}") == []
  {
  }

  // ----- Numbers -----

  /** The text of a number without its sign. */
  function Magnitude(n: Number): string {
    if NumberText(n)[..1] == "-" then NumberText(n)[1..] else NumberText(n)
  }

  /** Without an exponent: the digits, with zeros and a point only where the position of the point asks for them. */
  predicate PlainLayout(text: string, digits: string, point: int) {
    var k := |digits|;
    if k <= point then
      |text| == point && text[..k] == digits && forall i :: k <= i < point ==> text[i] == '0'
    else if 0 < point then
      |text| == k + 1 && text[..point] == digits[..point] && text[point] == '.' && text[point + 1..] == digits[point..]
    else
      && |text| == k + 2 - point && text[..2] == "0." && text[2 - point..] == digits
      && forall i :: 2 <= i < 2 - point ==> text[i] == '0'
  }

  /** The digits, with a point after the first when there are others. */
  function Mantissa(digits: string): string
    requires digits != []
  {
    if |digits| == 1 then digits else [digits[0], '.'] + digits[1..]
  }

  /** With an exponent: the mantissa, and an exponent with a sign and no leading zero. */
  predicate ExponentLayout(text: string, digits: string, point: int)
    requires digits != []
  {
    var m := |Mantissa(digits)|;
    && |text| > m + 2
    && text[..m] == Mantissa(digits)
    && text[m] == 'e' && text[m + 1] == (if point > 0 then '+' else '-')
    && IsExponent(text[m + 2..], if point > 0 then point - 1 else 1 - point)
  }

  predicate IsExponent(text: string, n: int) {
    text != [] && text[0] != '0' && AllDigits(text) && Text.Number(text) == n
  }

  lemma {:induction false} ExponentDigits(n: nat)
    requires n > 0
    ensures IsExponent(Decimal(n), n)
  {
    NumberOfDecimal(n);
    NoLeadingZero(n);
  }

  lemma NoLeadingZero(n: nat)
    requires n > 0
    ensures Decimal(n)[0] != '0'
  {
  }

  lemma ExponentLaidOut(digits: string, point: int)
    requires digits != [] && (point > 21 || point <= -6)
    ensures ExponentLayout(DecimalText(digits, point), digits, point)
  {
    var e := if point > 0 then point - 1 else 1 - point;
    var sign := if point > 0 then "+" else "-";
    ExponentParts(digits, point);
    hide Mantissa, IsExponent, Decimal, DecimalText;
    ExponentDigits(e);
    LaidOut(Mantissa(digits), sign, Decimal(e));
  }

  lemma ExponentParts(digits: string, point: int)
    requires digits != [] && (point > 21 || point <= -6)
    ensures DecimalText(digits, point)
         == Mantissa(digits) + ("e" + ((if point > 0 then "+" else "-") + Decimal(if point > 0 then point - 1 else 1 - point)))
  {
    hide Decimal, Nulls;
    assert digits[..1] + "." == [digits[0], '.'];
    var e := ExponentText(point - 1);
    assert digits[..1] + "." + digits[1..] + e == ([digits[0], '.'] + digits[1..]) + e;
  }

  lemma LaidOut(mantissa: string, sign: string, exponent: string)
    requires |sign| == 1 && exponent != []
    ensures var (text, m) := (mantissa + ("e" + (sign + exponent)), |mantissa|);
            |text| > m + 2 && text[..m] == mantissa && text[m] == 'e' && text[m + 1] == sign[0] && text[m + 2..] == exponent
  {
  }

  lemma PlainLaidOut(digits: string, point: int)
    requires digits != [] && -6 < point <= 21
    ensures PlainLayout(DecimalText(digits, point), digits, point)
  {
    var k, text := |digits|, DecimalText(digits, point);
    if k <= point {
      forall i | k <= i < point ensures text[i] == '0' {
        assert text[i] == Nulls(point - k)[i - k];
        assert Nulls(point - k)[i - k] in Nulls(point - k);
      }
    } else if point <= 0 {
      forall i | 2 <= i < 2 - point ensures text[i] == '0' {
        assert text[i] == Nulls(-point)[i - 2];
        assert Nulls(-point)[i - 2] in Nulls(-point);
      }
    }
  }

  /**
   * A number is written with a sign exactly when it is negative and not zero; in plain form exactly
   * when its point is above -6 and at most 21, and with an exponent otherwise.
   */
  lemma NumberIsLaidOut(n: Number)
    ensures NumberText(n)[..1] == "-" <==> n.Decimals? && n.negative
    ensures n.Zero? ==> NumberText(n) == "0"
    ensures n.Decimals? ==> if -6 < n.point <= 21 then PlainLayout(Magnitude(n), n.digits, n.point)
                            else ExponentLayout(Magnitude(n), n.digits, n.point)
  {
    hide PlainLayout, ExponentLayout, DecimalText, Nulls;
    if n.Decimals? {
      DecimalTextChars(n.digits, n.point);
      SignOff(n.negative, DecimalText(n.digits, n.point));
      if -6 < n.point <= 21 {
        PlainLaidOut(n.digits, n.point);
      } else {
        ExponentLaidOut(n.digits, n.point);
      }
    } else {
      assert "0"[..1][0] == '0' && "-"[0] == '-';
    }
  }

  lemma SignOff(negative: bool, text: string)
    requires text != [] && text[0] != '-'
    ensures var signed := (if negative then "-" else "") + text;
            (signed[..1] == "-" <==> negative) && (if negative then signed[1..] == text else signed == text)
  {
    assert "-"[0] == '-';
  }

  // ----- Messages -----

  /** What is hashed: the domain up to the first NUL, and then the canonical text. */
  lemma MessageParts(domain: string, v: Json)
    requires NulFree(domain)
    ensures var (m, n) := (DomainDigest(domain, v).message, IndexOf(DomainDigest(domain, v).message, '\0'));
            n < |m| && m[..n] == domain && m[n + 1..] == Serialize(v)
  {
    IndexOfSplit(domain, '\0', Serialize(v));
    var m := domain + ['\0'] + Serialize(v);
    assert m == domain + "\0" + Serialize(v);
  }

  const VALUE_DOMAIN := "horseness.json-value.v1"
  const DOCUMENT_DOMAIN := "horseness.canonical-document.v1"

  /** The text before the first NUL of the message. */
  function DomainOf(h: Hash): string {
    h.message[..IndexOf(h.message, '\0')]
  }

  lemma ValueDomain(v: Json)
    ensures DomainOf(JsonValueDigest(v)) == VALUE_DOMAIN
  {
    hide Serialize, IndexOf;
    MessageParts(VALUE_DOMAIN, v);
  }

  lemma DocumentDomain(v: Json)
    ensures DomainOf(StateHash(v)) == DOCUMENT_DOMAIN
  {
    hide Serialize, IndexOf;
    MessageParts(DOCUMENT_DOMAIN, v);
  }

  lemma DomainsDiffer()
    ensures VALUE_DOMAIN != DOCUMENT_DOMAIN
  {
    assert |VALUE_DOMAIN| != |DOCUMENT_DOMAIN|;
  }

  /** Values and documents are hashed in their own domains, so no digest of a value is the hash of a document. */
  lemma DigestsApart(v: Json, w: Json)
    ensures DomainOf(JsonValueDigest(v)) == VALUE_DOMAIN && DomainOf(StateHash(w)) == DOCUMENT_DOMAIN
    ensures JsonValueDigest(v) != StateHash(w)
  {
    hide JsonValueDigest, StateHash, DomainOf;
    ValueDomain(v);
    DocumentDomain(w);
    DomainsDiffer();
  }
}
