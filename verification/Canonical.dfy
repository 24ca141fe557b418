/** Canonical JSON, its reader, and domain-separated digests (packages/domain/src/canonical.ts; RFC 8785). */
module Canonical {
  import opened Wrappers
  import opened Text
  import opened Numbers
  import L = Lexicographic

  /** A JSON value; an object is a map, since canonical JSON does not keep the order of its keys. */
  datatype Json =
    | Null
    | Bool(b: bool)
    | Num(n: Number)
    | Str(s: string)
    | Arr(items: seq<Json>)
    | Obj(fields: map<string, Json>)

  // ----- Strings -----

  function HexDigit(n: nat): char
    requires n < 16
  {
    "0123456789abcdef"[n]
  }

  function HexValue(c: char): Option<nat> {
    if '0' <= c <= '9' then Some(c as int - '0' as int)
    else if 'a' <= c <= 'f' then Some(c as int - 'a' as int + 10)
    else if 'A' <= c <= 'F' then Some(c as int - 'A' as int + 10)
    else None
  }

  /** The text of one character inside a JSON string (section 3.2.2.2 of RFC 8785). */
  function Escape(c: char): string {
    var u := c as int;
    if c == '\"' then "\\\""
    else if c == '\\' then "\\\\"
    else if u == 8 then "\\b"
    else if u == 9 then "\\t"
    else if u == 10 then "\\n"
    else if u == 12 then "\\f"
    else if u == 13 then "\\r"
    else if u < 0x20 then "\\u00" + [HexDigit(u / 16), HexDigit(u % 16)]
    else [c]
  }

  function EscapeAll(s: string): string {
    if s == [] then [] else Escape(s[0]) + EscapeAll(s[1..])
  }

  function Quote(s: string): string {
    "\"" + EscapeAll(s) + "\""
  }

  /** One character after a backslash, with the number of characters it takes. */
  function ReadEscape(s: string): Option<(char, nat)>
    requires s != []
    ensures ReadEscape(s).Some? ==> 1 <= ReadEscape(s).value.1 <= |s|
  {
    match s[0]
    case '\"' => Some(('\"', 1))
    case '\\' => Some(('\\', 1))
    case '/' => Some(('/', 1))
    case 'b' => Some((8 as char, 1))
    case 't' => Some((9 as char, 1))
    case 'n' => Some((10 as char, 1))
    case 'f' => Some((12 as char, 1))
    case 'r' => Some((13 as char, 1))
    case 'u' =>
      if |s| < 5 then None
      else
        var (a, b, c, d) := (HexValue(s[1]), HexValue(s[2]), HexValue(s[3]), HexValue(s[4]));
        if a.None? || b.None? || c.None? || d.None? then None
        else
          var u := 4096 * a.value + 256 * b.value + 16 * c.value + d.value;
          if 0xD800 <= u < 0xE000 || u >= 0x10000 then None else Some((u as char, 5))
    case _ => None
  }

  /** Reads a string up to its closing quote: the text and what follows the quote. */
  function ReadString(s: string): (r: Option<(string, string)>)
    ensures r.Some? ==> |r.value.1| < |s|
  {
    if s == [] then None
    else if s[0] == '\"' then Some(([], s[1..]))
    else if s[0] == '\\' then
      if |s| < 2 then None
      else
        var escaped := ReadEscape(s[1..]);
        if escaped.None? then None
        else
          var tail := ReadString(s[1 + escaped.value.1..]);
          if tail.None? then None else Some(([escaped.value.0] + tail.value.0, tail.value.1))
    else if s[0] as int < 0x20 then None
    else
      var tail := ReadString(s[1..]);
      if tail.None? then None else Some(([s[0]] + tail.value.0, tail.value.1))
  }

  lemma ReadControl(u: nat, tail: string)
    requires u < 0x20
    ensures ReadEscape("u00" + [HexDigit(u / 16), HexDigit(u % 16)] + tail) == Some((u as char, 5))
  {
    var s := "u00" + [HexDigit(u / 16), HexDigit(u % 16)] + tail;
    assert HexValue(HexDigit(u / 16)) == Some(u / 16);
    assert HexValue(HexDigit(u % 16)) == Some(u % 16);
    assert s[0] == 'u' && s[1] == '0' && s[2] == '0' && s[3] == HexDigit(u / 16) && s[4] == HexDigit(u % 16);
  }

  function Prepend(c: char, r: Option<(string, string)>): Option<(string, string)> {
    if r.None? then None else Some(([c] + r.value.0, r.value.1))
  }

  lemma ReadBackslash(s: string, c: char, n: nat)
    requires |s| >= 2 && s[0] == '\\' && ReadEscape(s[1..]) == Some((c, n))
    ensures ReadString(s) == Prepend(c, ReadString(s[1 + n..]))
  {
    hide ReadEscape;
  }

  lemma ReadLetter(c: char, letter: char, tail: string)
    requires letter != 'u' && ReadEscape([letter]) == Some((c, 1))
    ensures ReadString("\\" + [letter] + tail) == Prepend(c, ReadString(tail))
  {
    var s := "\\" + [letter] + tail;
    assert s[1..] == [letter] + tail && s[2..] == tail;
    assert ReadEscape(s[1..]) == Some((c, 1));
    ReadBackslash(s, c, 1);
  }

  lemma ReadControlChar(c: char, tail: string)
    requires c as int < 0x20
    ensures ReadString("\\u00" + [HexDigit(c as int / 16), HexDigit(c as int % 16)] + tail) == Prepend(c, ReadString(tail))
  {
    var u := c as int;
    var s := "\\u00" + [HexDigit(u / 16), HexDigit(u % 16)] + tail;
    ReadControl(u, tail);
    assert s[1..] == "u00" + [HexDigit(u / 16), HexDigit(u % 16)] + tail && s[6..] == tail;
    ReadBackslash(s, c, 5);
  }

  lemma ReadPlain(c: char, tail: string)
    requires c != '\"' && c != '\\' && c as int >= 0x20
    ensures ReadString([c] + tail) == Prepend(c, ReadString(tail))
  {
    assert ([c] + tail)[1..] == tail;
  }

  lemma ReadOne(c: char, tail: string)
    ensures ReadString(Escape(c) + tail) == Prepend(c, ReadString(tail))
  {
    var u := c as int;
    hide ReadString;
    if c == '\"' || c == '\\' || u == 8 || u == 9 || u == 10 || u == 12 || u == 13 {
      assert Escape(c) == "\\" + [Escape(c)[1]];
      ReadLetter(c, Escape(c)[1], tail);
    } else if u < 0x20 {
      ReadControlChar(c, tail);
    } else {
      ReadPlain(c, tail);
    }
  }

  /** Reading a quoted string gives it back. */
  lemma {:induction false} ReadQuoted(t: string, rest: string)
    ensures ReadString(EscapeAll(t) + "\"" + rest) == Some((t, rest))
  {
    if t == [] {
      assert EscapeAll(t) + "\"" + rest == "\"" + rest;
      assert ("\"" + rest)[1..] == rest;
    } else {
      ReadQuoted(t[1..], rest);
      ReadOne(t[0], EscapeAll(t[1..]) + "\"" + rest);
      assert EscapeAll(t) + "\"" + rest == Escape(t[0]) + (EscapeAll(t[1..]) + "\"" + rest);
      assert t == [t[0]] + t[1..];
    }
  }

  // ----- The order of keys -----

  function Units(c: char): (r: seq<int>)
    ensures 1 <= |r| <= 2
  {
    var u := c as int;
    if u < 0x10000 then [u] else [0xD800 + (u - 0x10000) / 0x400, 0xDC00 + (u - 0x10000) % 0x400]
  }

  /** The UTF-16 code units of a string, by which `sort` compares (section 3.2.3 of RFC 8785). */
  function Utf16(s: string): seq<int> {
    if s == [] then [] else Units(s[0]) + Utf16(s[1..])
  }

  predicate KeyBefore(a: string, b: string) {
    L.Before(Utf16(a), Utf16(b))
  }

  lemma {:induction false} Utf16Injective(a: string, b: string)
    requires Utf16(a) == Utf16(b)
    ensures a == b
  {
    if a != [] && b != [] {
      assert Utf16(a)[0] == Units(a[0])[0] && Utf16(b)[0] == Units(b[0])[0];
      assert |Units(a[0])| == |Units(b[0])|;
      assert Units(a[0]) == Utf16(a)[..|Units(a[0])|] == Units(b[0]);
      assert a[0] == b[0];
      assert Utf16(a[1..]) == Utf16(a)[|Units(a[0])|..] == Utf16(b[1..]);
      Utf16Injective(a[1..], b[1..]);
      assert a == [a[0]] + a[1..] && b == [b[0]] + b[1..];
    }
  }

  lemma KeysComparable(a: string, b: string)
    ensures a == b || KeyBefore(a, b) || KeyBefore(b, a)
    ensures !(KeyBefore(a, b) && KeyBefore(b, a))
  {
    L.CompareFlips(Utf16(a), Utf16(b));
    L.CompareZero(Utf16(a), Utf16(b));
    if Utf16(a) == Utf16(b) {
      Utf16Injective(a, b);
    }
  }

  predicate IsFirst(k: string, keys: set<string>) {
    k in keys && forall j :: j in keys && j != k ==> KeyBefore(k, j)
  }

  lemma {:induction false} FirstExists(keys: set<string>) returns (k: string)
    requires keys != {}
    ensures IsFirst(k, keys)
  {
    var a :| a in keys;
    if keys == {a} {
      return a;
    }
    assert keys - {a} != {} by {
      assert keys == {a} + (keys - {a});
    }
    var m := FirstExists(keys - {a});
    KeysComparable(a, m);
    if KeyBefore(m, a) {
      return m;
    }
    forall j | j in keys && j != a ensures KeyBefore(a, j) {
      assert j in keys - {a};
      if j != m { L.BeforeTransitive(Utf16(a), Utf16(m), Utf16(j)); }
    }
    return a;
  }

  lemma FirstUnique(keys: set<string>)
    ensures forall j, k :: IsFirst(j, keys) && IsFirst(k, keys) ==> j == k
  {
    forall j, k | IsFirst(j, keys) && IsFirst(k, keys) ensures j == k {
      KeysComparable(j, k);
    }
  }

  function FirstKey(keys: set<string>): (k: string)
    requires keys != {}
    ensures IsFirst(k, keys)
  {
    FirstUnique(keys);
    assert exists k :: IsFirst(k, keys) by { var k := FirstExists(keys); }
    var k :| k in keys && IsFirst(k, keys);
    k
  }

  /** The keys of an object in the order of their code units. */
  function SortedKeys(keys: set<string>): (r: seq<string>)
    ensures |r| == |keys| && forall k :: k in r <==> k in keys
  {
    if keys == {} then []
    else
      var k := FirstKey(keys);
      [k] + SortedKeys(keys - {k})
  }

  lemma {:induction false} SortedKeysIncrease(keys: set<string>)
    ensures forall i, j :: 0 <= i < j < |SortedKeys(keys)| ==> KeyBefore(SortedKeys(keys)[i], SortedKeys(keys)[j])
  {
    if keys != {} {
      var k := FirstKey(keys);
      var tail := SortedKeys(keys - {k});
      SortedKeysIncrease(keys - {k});
      var all := SortedKeys(keys);
      assert all == [k] + tail;
      hide SortedKeys, KeyBefore;
      forall i, j | 0 <= i < j < |all| ensures KeyBefore(all[i], all[j]) {
        assert all[j] == tail[j - 1] && tail[j - 1] in tail;
        assert i > 0 ==> all[i] == tail[i - 1];
      }
    }
  }

  // ----- Writing -----

  /** `serialize`. */
  function Serialize(v: Json): string
    decreases v, 1
  {
    match v
    case Null => "null"
    case Bool(b) => if b then "true" else "false"
    case Num(n) => NumberText(n)
    case Str(s) => Quote(s)
    case Arr(items) => "[" + SerializeItems(items) + "]"
    case Obj(fields) => "{" + SerializeMembers(v, SortedKeys(fields.Keys)) + "}"
  }

  function SerializeItems(items: seq<Json>): string
    decreases items, 0
  {
    if items == [] then ""
    else Serialize(items[0]) + (if |items| == 1 then "" else "," + SerializeItems(items[1..]))
  }

  function SerializeMembers(v: Json, keys: seq<string>): string
    requires v.Obj? && forall k :: k in keys ==> k in v.fields
    decreases v, 0, |keys|
  {
    if keys == [] then ""
    else
      Quote(keys[0]) + ":" + Serialize(v.fields[keys[0]])
      + (if |keys| == 1 then "" else "," + SerializeMembers(v, keys[1..]))
  }

  // ----- Reading -----

  function TokenLength(s: string): (n: nat)
    ensures n <= |s|
  {
    if s == [] || !NumberChar(s[0]) then 0 else 1 + TokenLength(s[1..])
  }

  function ReadWord(s: string, word: string, v: Json): (r: Option<(Json, string)>)
    requires word != []
    ensures r.Some? ==> |r.value.1| < |s|
  {
    if word <= s then Some((v, s[|word|..])) else None
  }

  function ReadNumberValue(s: string): (r: Option<(Json, string)>)
    ensures r.Some? ==> |r.value.1| < |s|
  {
    var n := TokenLength(s);
    var number := ReadNumber(s[..n]);
    if n == 0 || number.None? then None else Some((Num(number.value), s[n..]))
  }

  /** Reads one JSON value without white space: the value and the text after it. */
  function ParseValue(s: string): (r: Option<(Json, string)>)
    ensures r.Some? ==> |r.value.1| < |s|
    decreases |s|, 0
  {
    if s == [] then None
    else if s[0] == 'n' then ReadWord(s, "null", Null)
    else if s[0] == 't' then ReadWord(s, "true", Bool(true))
    else if s[0] == 'f' then ReadWord(s, "false", Bool(false))
    else if s[0] == '\"' then
      var text := ReadString(s[1..]);
      if text.None? then None else Some((Str(text.value.0), text.value.1))
    else if s[0] == '[' then
      if |s| > 1 && s[1] == ']' then Some((Arr([]), s[2..]))
      else
        var items := ParseItems(s[1..]);
        if items.None? then None else Some((Arr(items.value.0), items.value.1))
    else if s[0] == '{' then
      if |s| > 1 && s[1] == '}' then Some((Obj(map[]), s[2..]))
      else
        var members := ParseMembers(s[1..]);
        if members.None? then None else Some((Obj(members.value.0), members.value.1))
    else ReadNumberValue(s)
  }

  function ParseItems(s: string): (r: Option<(seq<Json>, string)>)
    ensures r.Some? ==> |r.value.1| < |s|
    decreases |s|, 1
  {
    var first := ParseValue(s);
    if first.None? then None
    else
      var rest := first.value.1;
      if rest == [] then None
      else if rest[0] == ']' then Some(([first.value.0], rest[1..]))
      else if rest[0] == ',' then
        var more := ParseItems(rest[1..]);
        if more.None? then None else Some(([first.value.0] + more.value.0, more.value.1))
      else None
  }

  function ParseMembers(s: string): (r: Option<(map<string, Json>, string)>)
    ensures r.Some? ==> |r.value.1| < |s|
    decreases |s|, 1
  {
    if s == [] || s[0] != '\"' then None
    else
      var key := ReadString(s[1..]);
      if key.None? || key.value.1 == [] || key.value.1[0] != ':' then None
      else
        var value := ParseValue(key.value.1[1..]);
        if value.None? || value.value.1 == [] then None
        else
          var member := map[key.value.0 := value.value.0];
          var rest := value.value.1;
          if rest[0] == '}' then Some((member, rest[1..]))
          else if rest[0] == ',' then
            var more := ParseMembers(rest[1..]);
            if more.None? then None else Some((member + more.value.0, more.value.1))
          else None
  }

  // ----- Reading back what was written -----

  /** A value with its negative zeros made positive, as canonical JSON writes them. */
  function Normalize(v: Json): Json
    decreases v, 1
  {
    match v
    case Num(n) => Num(Unsigned(n))
    case Arr(items) => Arr(NormalizeAll(items))
    case Obj(fields) => Obj(map k | k in fields :: Normalize(fields[k]))
    case _ => v
  }

  function NormalizeAll(items: seq<Json>): (r: seq<Json>)
    ensures |r| == |items|
    decreases items, 0
  {
    if items == [] then [] else [Normalize(items[0])] + NormalizeAll(items[1..])
  }

  /** The text after a value cannot be read as more of a number. */
  predicate Delimited(rest: string) {
    rest == [] || !NumberChar(rest[0])
  }

  predicate StartsValue(c: char) {
    c == 'n' || c == 't' || c == 'f' || c == '\"' || c == '[' || c == '{' || c == '-' || IsDigit(c)
  }

  lemma FirstChar(v: Json)
    ensures Serialize(v) != [] && StartsValue(Serialize(v)[0])
  {
    match v
    case Num(n) => NumberTextChars(n);
    case _ =>
  }

  lemma {:induction false} TokenIs(token: string, rest: string)
    requires (forall c :: c in token ==> NumberChar(c)) && Delimited(rest)
    ensures TokenLength(token + rest) == |token|
  {
    var s := token + rest;
    if token == [] {
      assert s == rest;
    } else {
      assert s[1..] == token[1..] + rest;
      TokenIs(token[1..], rest);
    }
  }

  lemma ParseNumberText(n: Number, rest: string)
    requires Delimited(rest)
    ensures ParseValue(NumberText(n) + rest) == Some((Num(Unsigned(n)), rest))
  {
    hide NumberText, ReadNumber, ParseValue;
    var s := NumberText(n) + rest;
    NumberTextChars(n);
    TokenIs(NumberText(n), rest);
    ReadBack(n);
    assert s[..|NumberText(n)|] == NumberText(n) && s[|NumberText(n)|..] == rest;
    assert s[0] == NumberText(n)[0];
    NumberComesLast(s);
  }

  lemma NumberComesLast(s: string)
    requires s != [] && (s[0] == '-' || IsDigit(s[0]))
    ensures ParseValue(s) == ReadNumberValue(s)
  {
    hide ReadNumberValue;
  }

  lemma ParseWord(word: string, v: Json, rest: string)
    requires word != []
    ensures ReadWord(word + rest, word, v) == Some((v, rest))
  {
    assert (word + rest)[|word|..] == rest;
  }

  lemma ParseQuoted(t: string, rest: string)
    ensures (Quote(t) + rest) != [] && (Quote(t) + rest)[0] == '\"'
    ensures ReadString((Quote(t) + rest)[1..]) == Some((t, rest))
  {
    ReadQuoted(t, rest);
    assert (Quote(t) + rest)[1..] == EscapeAll(t) + "\"" + rest;
  }

  /** Reading a serialized value gives it back, and leaves the text after it. */
  lemma {:induction false} ParseSerialized(v: Json, rest: string)
    requires Delimited(rest)
    ensures ParseValue(Serialize(v) + rest) == Some((Normalize(v), rest))
    decreases v, 1
  {
    match v
    case Null =>
      ParseWord("null", v, rest);
      assert ("null" + rest)[0] == 'n';
    case Bool(b) =>
      var word := if b then "true" else "false";
      ParseWord(word, v, rest);
      assert (word + rest)[0] == word[0];
    case Num(n) => ParseNumberText(n, rest);
    case Str(t) => ParseQuoted(t, rest);
    case Arr(items) => ParseSerializedArray(items, rest);
    case Obj(fields) => ParseSerializedObject(v, rest);
  }

  lemma ArrayBody(body: string, items: seq<Json>, rest: string)
    requires body != [] && body[0] != ']' && ParseItems(body) == Some((items, rest))
    ensures ParseValue("[" + body) == Some((Arr(items), rest))
  {
    hide ParseItems;
    assert ("[" + body)[1..] == body;
  }

  lemma SerializedArray(items: seq<Json>, rest: string)
    requires items != []
    ensures var body := SerializeItems(items) + "]" + rest;
            "[" + SerializeItems(items) + "]" + rest == "[" + body && body[0] != ']'
  {
    FirstChar(items[0]);
    var body := SerializeItems(items) + "]" + rest;
    assert body[0] == Serialize(items[0])[0];
  }

  lemma {:induction false} ParseSerializedArray(items: seq<Json>, rest: string)
    ensures ParseValue("[" + SerializeItems(items) + "]" + rest) == Some((Arr(NormalizeAll(items)), rest))
    decreases items, 1
  {
    if items == [] {
      var s := "[" + SerializeItems(items) + "]" + rest;
      assert s == "[]" + rest && s[2..] == rest;
    } else {
      SerializedArray(items, rest);
      ParseSerializedItems(items, rest);
      hide SerializeItems, ParseItems, ParseValue, NormalizeAll;
      ArrayBody(SerializeItems(items) + "]" + rest, NormalizeAll(items), rest);
    }
  }

  lemma {:induction false} ParseSerializedItems(items: seq<Json>, rest: string)
    requires items != []
    ensures ParseItems(SerializeItems(items) + "]" + rest) == Some((NormalizeAll(items), rest))
    decreases items, 0
  {
    hide ParseValue, Serialize, Normalize;
    var s := SerializeItems(items) + "]" + rest;
    if |items| == 1 {
      assert s == Serialize(items[0]) + ("]" + rest);
      ParseSerialized(items[0], "]" + rest);
      assert ("]" + rest)[1..] == rest;
      assert NormalizeAll(items) == [Normalize(items[0])];
    } else {
      var tail := SerializeItems(items[1..]) + "]" + rest;
      assert s == Serialize(items[0]) + ("," + tail);
      ParseSerialized(items[0], "," + tail);
      assert ("," + tail)[1..] == tail;
      ParseSerializedItems(items[1..], rest);
    }
  }

  lemma ObjectBody(body: string, members: map<string, Json>, rest: string)
    requires body != [] && body[0] == '\"' && ParseMembers(body) == Some((members, rest))
    ensures ParseValue("{" + body) == Some((Obj(members), rest))
  {
    hide ParseMembers;
    assert ("{" + body)[1..] == body;
  }

  lemma EmptyObject(v: Json, rest: string)
    requires v.Obj? && SortedKeys(v.fields.Keys) == []
    ensures ParseValue(Serialize(v) + rest) == Some((Normalize(v), rest))
  {
    assert |v.fields.Keys| == 0;
    assert Normalize(v).fields == map[];
    assert Serialize(v) == "{" + SerializeMembers(v, []) + "}" && SerializeMembers(v, []) == "";
    hide Serialize, SerializeMembers, SortedKeys;
    var s := Serialize(v) + rest;
    assert s == "{}" + rest && s[0] == '{' && s[1] == '}' && s[2..] == rest;
  }

  lemma {:induction false} ParseSerializedObject(v: Json, rest: string)
    requires v.Obj?
    ensures ParseValue(Serialize(v) + rest) == Some((Normalize(v), rest))
    decreases v, 0, |v.fields| + 1
  {
    var keys := SortedKeys(v.fields.Keys);
    if keys == [] {
      EmptyObject(v, rest);
    } else {
      SerializedObject(v, rest);
      SortedKeysIncrease(v.fields.Keys);
      forall i, j | 0 <= i < j < |keys| ensures keys[i] != keys[j] {
        KeysComparable(keys[i], keys[j]);
      }
      hide Serialize, SerializeMembers, ParseValue, ParseMembers, SortedKeys;
      var body := SerializeMembers(v, keys) + "}" + rest;
      ParseSerializedMembers(v, keys, rest);
      ObjectBody(body, MembersOf(v, keys), rest);
      assert Normalize(v).fields == MembersOf(v, keys);
    }
  }

  lemma SerializedObject(v: Json, rest: string)
    requires v.Obj? && SortedKeys(v.fields.Keys) != []
    ensures var body := SerializeMembers(v, SortedKeys(v.fields.Keys)) + "}" + rest;
            Serialize(v) + rest == "{" + body && body[0] == '\"'
  {
    var keys := SortedKeys(v.fields.Keys);
    hide SortedKeys;
    var body := SerializeMembers(v, keys) + "}" + rest;
    assert Serialize(v) + rest == "{" + body;
    assert SerializeMembers(v, keys)[0] == Quote(keys[0])[0];
  }

  function MembersOf(v: Json, keys: seq<string>): map<string, Json>
    requires v.Obj? && forall k :: k in keys ==> k in v.fields
  {
    map k | k in keys :: Normalize(v.fields[k])
  }

  /** One member of an object, with what follows its value. */
  lemma OneMember(k: string, text: string, value: Json, tail: string)
    requires ParseValue(text + tail) == Some((value, tail)) && tail != []
    ensures var s := Quote(k) + (":" + (text + tail));
            && (tail[0] == '}' ==> ParseMembers(s) == Some((map[k := value], tail[1..])))
            && (tail[0] == ',' && ParseMembers(tail[1..]).Some? ==>
                  ParseMembers(s) == Some((map[k := value] + ParseMembers(tail[1..]).value.0, ParseMembers(tail[1..]).value.1)))
  {
    var s := Quote(k) + (":" + (text + tail));
    ParseQuoted(k, ":" + (text + tail));
    hide ParseValue, ReadString, Quote;
    assert (":" + (text + tail))[1..] == text + tail;
  }

  lemma MembersText(v: Json, keys: seq<string>, rest: string)
    requires v.Obj? && keys != [] && forall k :: k in keys ==> k in v.fields
    ensures var tail := if |keys| == 1 then "}" + rest else "," + (SerializeMembers(v, keys[1..]) + "}" + rest);
            SerializeMembers(v, keys) + "}" + rest == Quote(keys[0]) + (":" + (Serialize(v.fields[keys[0]]) + tail))
  {
    hide Serialize, Quote;
  }

  lemma {:induction false} ParseSerializedMembers(v: Json, keys: seq<string>, rest: string)
    requires v.Obj? && keys != [] && forall k :: k in keys ==> k in v.fields
    requires forall i, j :: 0 <= i < j < |keys| ==> keys[i] != keys[j]
    ensures ParseMembers(SerializeMembers(v, keys) + "}" + rest) == Some((MembersOf(v, keys), rest))
    decreases v, 0, |keys|
  {
    hide Serialize, SerializeMembers, ParseValue, ParseMembers, Quote;
    var k, value := keys[0], v.fields[keys[0]];
    var more := if |keys| == 1 then "" else SerializeMembers(v, keys[1..]) + "}" + rest;
    var tail := if |keys| == 1 then "}" + rest else "," + more;
    MembersText(v, keys, rest);
    ParseSerialized(value, tail);
    OneMember(k, Serialize(value), Normalize(value), tail);
    if |keys| == 1 {
      assert tail[1..] == rest;
      MembersGrow(v, keys);
    } else {
      assert tail[1..] == more;
      ParseSerializedMembers(v, keys[1..], rest);
      MembersGrow(v, keys);
    }
  }

  lemma MembersGrow(v: Json, keys: seq<string>)
    requires v.Obj? && keys != [] && forall k :: k in keys ==> k in v.fields
    requires forall i, j :: 0 <= i < j < |keys| ==> keys[i] != keys[j]
    ensures MembersOf(v, keys) == map[keys[0] := Normalize(v.fields[keys[0]])] + MembersOf(v, keys[1..])
    ensures |keys| == 1 ==> MembersOf(v, keys) == map[keys[0] := Normalize(v.fields[keys[0]])]
  {
    hide Normalize;
    assert keys[0] !in keys[1..];
  }

  // ----- Canonical texts determine values -----

  /** `deepClone`: what `JSON.parse` reads from the canonical text. */
  function DeepClone(v: Json): (r: Json)
    ensures r == Normalize(v)
  {
    ParseSerialized(v, "");
    assert Serialize(v) + "" == Serialize(v);
    ParseValue(Serialize(v)).value.0
  }

  lemma {:induction false} SerializeNormalized(v: Json)
    ensures Serialize(Normalize(v)) == Serialize(v)
    decreases v, 1
  {
    match v
    case Arr(items) => SerializeNormalizedItems(items);
    case Obj(fields) =>
      assert Normalize(v).fields.Keys == fields.Keys;
      SerializeNormalizedMembers(v, SortedKeys(fields.Keys));
    case _ =>
  }

  lemma {:induction false} SerializeNormalizedItems(items: seq<Json>)
    ensures SerializeItems(NormalizeAll(items)) == SerializeItems(items)
    decreases items, 0
  {
    if items != [] {
      SerializeNormalized(items[0]);
      SerializeNormalizedItems(items[1..]);
      assert NormalizeAll(items)[1..] == NormalizeAll(items[1..]);
    }
  }

  lemma {:induction false} SerializeNormalizedMembers(v: Json, keys: seq<string>)
    requires v.Obj? && forall k :: k in keys ==> k in v.fields
    ensures SerializeMembers(Normalize(v), keys) == SerializeMembers(v, keys)
    decreases v, 0, |keys|
  {
    if keys != [] {
      SerializeNormalized(v.fields[keys[0]]);
      SerializeNormalizedMembers(v, keys[1..]);
    }
  }

  /** Two values have the same canonical text exactly when they are equal up to the sign of zero. */
  lemma CanonicalInjective(v: Json, w: Json)
    ensures Serialize(v) == Serialize(w) <==> Normalize(v) == Normalize(w)
  {
    SerializeNormalized(v);
    SerializeNormalized(w);
    ParseSerialized(v, "");
    ParseSerialized(w, "");
  }

  // ----- Domain-separated digests -----

  /** A digest names the message that was hashed: SHA-256 stands for itself, free of collisions. */
  datatype Hash = Sha256(message: string)

  /** `domainDigest`: the domain, a NUL and the canonical text. */
  function DomainDigest(domain: string, v: Json): Hash {
    Sha256(domain + "\0" + Serialize(v))
  }

  function JsonValueDigest(v: Json): Hash {
    DomainDigest("horseness.json-value.v1", v)
  }

  predicate NulFree(s: string) {
    '\0' !in s
  }

  /** Texts of different domains never meet: the first NUL of the message ends the domain. */
  lemma DomainDigestInjective(d: string, v: Json, e: string, w: Json)
    requires NulFree(d) && NulFree(e)
    ensures DomainDigest(d, v) == DomainDigest(e, w) <==> d == e && Normalize(v) == Normalize(w)
  {
    CanonicalInjective(v, w);
    if DomainDigest(d, v) == DomainDigest(e, w) {
      IndexOfSplit(d, '\0', Serialize(v));
      IndexOfSplit(e, '\0', Serialize(w));
      var m := d + ['\0'] + Serialize(v);
      assert m == d + "\0" + Serialize(v) && m == e + ['\0'] + Serialize(w);
      assert d == m[..|d|] && e == m[..|e|];
      assert Serialize(v) == m[|d| + 1..] && Serialize(w) == m[|e| + 1..];
    }
  }

  lemma JsonValueDigestInjective(v: Json, w: Json)
    ensures JsonValueDigest(v) == JsonValueDigest(w) <==> Normalize(v) == Normalize(w)
  {
    DomainDigestInjective("horseness.json-value.v1", v, "horseness.json-value.v1", w);
  }

  /** The hash that names a canonical document. */
  function StateHash(document: Json): Hash {
    DomainDigest("horseness.canonical-document.v1", document)
  }

  lemma StateHashNames(v: Json, w: Json)
    ensures StateHash(v) == StateHash(w) <==> Normalize(v) == Normalize(w)
  {
    DomainDigestInjective("horseness.canonical-document.v1", v, "horseness.canonical-document.v1", w);
  }

  lemma {:induction false} NormalizeIdempotent(v: Json)
    ensures Normalize(Normalize(v)) == Normalize(v)
  {
    SerializeNormalized(v);
    CanonicalInjective(Normalize(v), v);
  }
}
