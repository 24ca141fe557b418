/** Lower-case base 32 without padding (packages/domain/src/canonical.ts; section 6 of RFC 4648). */
module Base32 {

  const ALPHABET := "abcdefghijklmnopqrstuvwxyz234567"
  const WORD := 0x1_0000_0000

  type Byte = b: int | 0 <= b < 256
  type Bit = b: int | 0 <= b < 2

  // ----- The encoding of RFC 4648 -----

  function Power2(n: nat): (p: nat)
    ensures p >= 1
  {
    if n == 0 then 1 else 2 * Power2(n - 1)
  }

  /** The `n` low bits of a number, most significant first. */
  function Bits(x: nat, n: nat): (r: seq<Bit>)
    ensures |r| == n
  {
    if n == 0 then [] else Bits(x / 2, n - 1) + [x % 2]
  }

  /** The number a list of bits denotes. */
  function Value(bits: seq<Bit>): (v: nat)
    ensures v < Power2(|bits|)
  {
    if bits == [] then 0 else 2 * Value(bits[..|bits| - 1]) + bits[|bits| - 1]
  }

  function AllBits(bytes: seq<Byte>): (r: seq<Bit>)
    ensures |r| == 8 * |bytes|
  {
    if bytes == [] then [] else AllBits(bytes[..|bytes| - 1]) + Bits(bytes[|bytes| - 1], 8)
  }

  function Symbol(group: seq<Bit>): char
    requires |group| == 5
  {
    assert Power2(5) == 32;
    ALPHABET[Value(group)]
  }

  /** Whole groups of five bits, each as one symbol. */
  function Groups(bits: seq<Bit>): (r: string)
    requires |bits| % 5 == 0
    ensures |r| == |bits| / 5
  {
    if bits == [] then [] else Groups(bits[..|bits| - 5]) + [Symbol(bits[|bits| - 5..])]
  }

  function Zeros(n: nat): seq<Bit> {
    seq(n, _ => 0)
  }

  /** How many bits complete the last group of five. */
  function Missing(n: nat): (r: nat)
    ensures r < 5 && (n + r) % 5 == 0
  {
    (5 - n % 5) % 5
  }

  /** Section 6 of RFC 4648 without padding characters: zero bits complete the last group. */
  function Encode(bytes: seq<Byte>): string {
    var bits := AllBits(bytes);
    Groups(bits + Zeros(Missing(|bits|)))
  }

  lemma GroupsAppend(bits: seq<Bit>, group: seq<Bit>)
    requires |bits| % 5 == 0 && |group| == 5
    ensures Groups(bits + group) == Groups(bits) + [Symbol(group)]
  {
    hide Symbol;
    var all := bits + group;
    assert all[..|all| - 5] == bits && all[|all| - 5..] == group;
  }

  lemma EncodedLength(bytes: seq<Byte>)
    ensures |Encode(bytes)| == (8 * |bytes| + 4) / 5
  {
  }

  // ----- Arithmetic on a few bits -----

  lemma SmallPowers()
    ensures Power2(0) == 1 && Power2(1) == 2 && Power2(2) == 4 && Power2(3) == 8 && Power2(4) == 16 && Power2(5) == 32
    ensures Power2(6) == 64 && Power2(7) == 128 && Power2(8) == 256
    ensures Power2(9) == 512 && Power2(10) == 1024 && Power2(11) == 2048 && Power2(12) == 4096
  {
    assert Power2(3) == 8;
    assert Power2(6) == 64;
    assert Power2(9) == 512;
  }

  lemma {:induction false} Power2Add(a: nat, b: nat)
    ensures Power2(a + b) == Power2(a) * Power2(b)
  {
    if a > 0 {
      Power2Add(a - 1, b);
      Associates(2, Power2(a - 1), Power2(b));
    }
  }

  lemma Associates(x: int, y: int, z: int)
    ensures x * y * z == x * (y * z)
  {
  }

  /** Quotient and remainder are unique. */
  lemma QuotientUnique(x: int, q: int, m: int, r: int)
    requires 0 <= r < m && x == q * m + r
    ensures x / m == q && x % m == r
  {
    var d := q - x / m;
    assert d * m == q * m - x / m * m;
    assert d >= 1 ==> d * m >= m;
    assert d <= -1 ==> d * m <= -m;
  }

  lemma {:induction false} ValueOfConcat(a: seq<Bit>, b: seq<Bit>)
    ensures Value(a + b) == Value(a) * Power2(|b|) + Value(b)
  {
    if b == [] {
      assert a + b == a;
    } else {
      var c := b[..|b| - 1];
      assert (a + b)[..|a + b| - 1] == a + c;
      ValueOfConcat(a, c);
      Associates(2, Value(a), Power2(|c|));
      Associates(Value(a), 2, Power2(|c|));
    }
  }

  lemma {:induction false} ValueOfBits(x: nat, n: nat)
    requires x < Power2(n)
    ensures Value(Bits(x, n)) == x
  {
    if n > 0 {
      ValueOfBits(x / 2, n - 1);
      assert Bits(x, n)[..n - 1] == Bits(x / 2, n - 1);
    }
  }

  lemma {:induction false} BitsOfValue(bits: seq<Bit>)
    ensures Bits(Value(bits), |bits|) == bits
  {
    if bits != [] {
      BitsOfValue(bits[..|bits| - 1]);
    }
  }

  /** Shifting a byte into the wrapping word leaves the pending bits followed by the byte. */
  lemma ShiftIn(acc: nat, byte: Byte, bits: nat, pending: nat)
    requires bits < 5 && acc % Power2(bits) == pending
    ensures (acc * 256 % WORD + byte) % Power2(bits + 8) == 256 * pending + byte
  {
    var p, c := Power2(bits), Power2(24 - bits);
    var q, k := acc / p, acc * 256 / WORD;
    SmallPowers();
    Power2Add(bits, 8);
    Power2Add(24 - bits, bits);
    assert c * p == 0x1000000 by { Power2Add(12, 12); }
    WordShift(acc, p, q, pending, k, c);
    QuotientUnique(acc * 256 % WORD + byte, q - k * c, 256 * p, 256 * pending + byte);
  }

  lemma WordShift(acc: nat, p: nat, q: int, pending: nat, k: int, c: nat)
    requires acc == q * p + pending && c * p == 0x1000000 && k == acc * 256 / WORD
    ensures acc * 256 % WORD == (q - k * c) * (256 * p) + 256 * pending
  {
    assert acc * 256 % WORD == 256 * (q * p) + 256 * pending - k * WORD;
    assert (q - k * c) * (256 * p) == 256 * (q * p) - 256 * (k * (c * p)) by {
      Associates(k, c, 256 * p);
      Associates(c, 256, p);
    }
  }

  /** The five top pending bits are what the shift and mask select; the rest stay pending. */
  lemma SelectGroup(acc: nat, bits: nat, group: nat, rest: nat)
    requires 5 <= bits && group < 32 && rest < Power2(bits - 5)
    requires acc % Power2(bits) == group * Power2(bits - 5) + rest
    ensures acc / Power2(bits - 5) % 32 == group
    ensures acc % Power2(bits - 5) == rest
  {
    var p := Power2(bits - 5);
    var q := acc / Power2(bits);
    SmallPowers();
    Power2Add(5, bits - 5);
    assert acc == (32 * q + group) * p + rest by {
      assert acc == q * (32 * p) + group * p + rest;
      Associates(q, 32, p);
    }
    QuotientUnique(acc, 32 * q + group, p, rest);
    QuotientUnique(32 * q + group, q, 32, group);
  }

  /** The last, incomplete group is filled up with zero bits. */
  lemma LastGroup(acc: nat, bits: nat, pending: nat)
    requires 1 <= bits < 5 && acc % Power2(bits) == pending
    ensures acc * Power2(5 - bits) % WORD % 32 == pending * Power2(5 - bits)
  {
    var p, f := Power2(bits), Power2(5 - bits);
    var q, k := acc / p, acc * f / WORD;
    SmallPowers();
    Power2Add(bits, 5 - bits);
    assert acc * f == 32 * q + pending * f by {
      assert acc == q * p + pending;
      Associates(q, p, f);
    }
    assert 0 <= pending * f < p * f;
    QuotientUnique(acc * f % WORD, q - k * 0x8000000, 32, pending * f);
  }

  lemma {:induction false} ZerosAreZero(n: nat)
    ensures Value(Zeros(n)) == 0
  {
    if n > 0 {
      ZerosAreZero(n - 1);
      assert Zeros(n)[..n - 1] == Zeros(n - 1);
    }
  }

  // ----- The accumulator loop -----

  ghost predicate Pending(acc: nat, bits: nat, output: string, all: seq<Bit>) {
    && bits == |all| - 5 * |output| && 5 * |output| <= |all|
    && output == Groups(all[..5 * |output|])
    && acc % Power2(bits) == Value(all[5 * |output|..])
  }

  lemma TakeByte(acc: nat, bits: nat, output: string, all: seq<Bit>, byte: Byte)
    requires Pending(acc, bits, output, all) && bits < 5
    ensures Pending(acc * 256 % WORD + byte, bits + 8, output, all + Bits(byte, 8))
  {
    var n := 5 * |output|;
    var grown := all + Bits(byte, 8);
    assert grown[..n] == all[..n] && grown[n..] == all[n..] + Bits(byte, 8);
    SmallPowers();
    ValueOfBits(byte, 8);
    ValueOfConcat(all[n..], Bits(byte, 8));
    ShiftIn(acc, byte, bits, Value(all[n..]));
  }

  lemma EmitGroup(acc: nat, bits: nat, output: string, all: seq<Bit>)
    requires Pending(acc, bits, output, all) && 5 <= bits <= 12
    ensures Pending(acc, bits - 5, output + [ALPHABET[acc / Power2(bits - 5) % 32]], all)
  {
    hide Groups, Value, Power2;
    var n := 5 * |output|;
    var pending := all[n..];
    SmallPowers();
    assert pending == pending[..5] + pending[5..];
    ValueOfConcat(pending[..5], pending[5..]);
    SelectGroup(acc, bits, Value(pending[..5]), Value(pending[5..]));
    GroupsAppend(all[..n], pending[..5]);
    assert all[..n] + pending[..5] == all[..n + 5] && all[n + 5..] == pending[5..];
  }

  lemma EmitLast(acc: nat, bits: nat, output: string, all: seq<Bit>)
    requires Pending(acc, bits, output, all) && 0 < bits < 5
    ensures output + [ALPHABET[acc * Power2(5 - bits) % WORD % 32]] == Groups(all + Zeros(5 - bits))
  {
    hide Groups, Value, Power2;
    var n := 5 * |output|;
    var zeros := Zeros(5 - bits);
    ValueOfConcat(all[n..], zeros);
    ZerosAreZero(5 - bits);
    LastGroup(acc, bits, Value(all[n..]));
    GroupsAppend(all[..n], all[n..] + zeros);
    assert all[..n] + (all[n..] + zeros) == all + zeros;
  }

  lemma NothingLeft(acc: nat, output: string, all: seq<Bit>)
    requires Pending(acc, 0, output, all)
    ensures output == Groups(all + Zeros(0))
  {
    assert all[..5 * |output|] == all && all + Zeros(0) == all;
  }

  /**
   * `lowercaseBase32NoPadding`: the accumulator is a 32-bit word that is never masked, so shifts drop
   * its high bits; the output is nevertheless the encoding of every byte string.
   */
  method LowercaseBase32NoPadding(bytes: seq<Byte>) returns (output: string)
    ensures output == Encode(bytes)
  {
    hide Groups, Value, Power2, Bits;
    var bits, accumulator := 0, 0;
    output := "";
    StartsEmpty();
    var i := 0;
    while i < |bytes|
      invariant 0 <= i <= |bytes|
      invariant 0 <= bits < 5 && 0 <= accumulator
      invariant Pending(accumulator, bits, output, AllBits(bytes[..i]))
    {
      hide Pending;
      ghost var all := AllBits(bytes[..i + 1]);
      assert bytes[..i + 1][..i] == bytes[..i];
      TakeByte(accumulator, bits, output, AllBits(bytes[..i]), bytes[i]);
      accumulator := accumulator * 256 % WORD + bytes[i];
      bits := bits + 8;
      while bits >= 5
        invariant 0 <= bits <= 12 && 0 <= accumulator
        invariant Pending(accumulator, bits, output, all)
      {
        EmitGroup(accumulator, bits, output, all);
        bits := bits - 5;
        output := output + [ALPHABET[accumulator / Power2(bits) % 32]];
      }
      i := i + 1;
    }
    assert bytes[..i] == bytes;
    assert (5 - |AllBits(bytes)| % 5) % 5 == if bits > 0 then 5 - bits else 0;
    if bits > 0 {
      EmitLast(accumulator, bits, output, AllBits(bytes));
      output := output + [ALPHABET[accumulator * Power2(5 - bits) % WORD % 32]];
    } else {
      NothingLeft(accumulator, output, AllBits(bytes));
    }
  }

  lemma StartsEmpty()
    ensures AllBits([]) == [] && Pending(0, 0, "", [])
  {
  }

  // ----- Decoding -----

  function SymbolValue(c: char): (v: nat)
    ensures v < 32
  {
    if 'a' <= c <= 'z' then c as int - 'a' as int
    else if '2' <= c <= '7' then c as int - '2' as int + 26
    else 0
  }

  function SymbolBits(s: string): (r: seq<Bit>)
    ensures |r| == 5 * |s|
  {
    if s == [] then [] else SymbolBits(s[..|s| - 1]) + Bits(SymbolValue(s[|s| - 1]), 5)
  }

  function BytesOf(bits: seq<Bit>): seq<Byte>
    requires |bits| % 8 == 0
  {
    if bits == [] then [] else
      assert Power2(8) == 256 by { SmallPowers(); }
      BytesOf(bits[..|bits| - 8]) + [Value(bits[|bits| - 8..])]
  }

  /** Reads symbols as bits and keeps the whole bytes. */
  function Decode(s: string): seq<Byte> {
    BytesOf(SymbolBits(s)[..8 * (5 * |s| / 8)])
  }

  lemma SymbolRoundTrip(group: seq<Bit>)
    requires |group| == 5
    ensures Bits(SymbolValue(Symbol(group)), 5) == group
  {
    hide Value, Bits;
    assert Power2(5) == 32;
    BitsOfValue(group);
    AlphabetRoundTrip(Value(group));
  }

  lemma AlphabetRoundTrip(v: nat)
    requires v < 32
    ensures SymbolValue(ALPHABET[v]) == v
  {
  }

  lemma {:induction false} GroupsRoundTrip(bits: seq<Bit>)
    requires |bits| % 5 == 0
    ensures SymbolBits(Groups(bits)) == bits
  {
    hide Symbol, Bits, SymbolValue;
    if bits != [] {
      var front, group := bits[..|bits| - 5], bits[|bits| - 5..];
      GroupsRoundTrip(front);
      SymbolRoundTrip(group);
      var s := Groups(bits);
      assert s[..|s| - 1] == Groups(front) && s[|s| - 1] == Symbol(group);
      assert bits == front + group;
    }
  }

  lemma {:induction false} BytesRoundTrip(bytes: seq<Byte>)
    ensures BytesOf(AllBits(bytes)) == bytes
  {
    if bytes != [] {
      var n := |bytes| - 1;
      BytesRoundTrip(bytes[..n]);
      SmallPowers();
      ValueOfBits(bytes[n], 8);
      var bits := AllBits(bytes);
      assert bits[..|bits| - 8] == AllBits(bytes[..n]) && bits[|bits| - 8..] == Bits(bytes[n], 8);
    }
  }

  lemma WholeBytes(bits: seq<Bit>, n: nat, zeros: seq<Bit>)
    requires |bits| == 8 * n && |zeros| < 5
    ensures (bits + zeros)[..8 * (|bits + zeros| / 8)] == bits
  {
    assert |bits + zeros| / 8 == n;
  }

  /** Decoding an encoded byte string gives it back. */
  lemma DecodeEncode(bytes: seq<Byte>)
    ensures Decode(Encode(bytes)) == bytes
  {
    hide Groups, SymbolBits, BytesOf, AllBits, Missing, Zeros;
    var bits := AllBits(bytes);
    var zeros := Zeros(Missing(|bits|));
    assert |zeros| == Missing(|bits|) by { ZerosLength(Missing(|bits|)); }
    GroupsRoundTrip(bits + zeros);
    BytesRoundTrip(bytes);
    WholeBytes(bits, |bytes|, zeros);
    assert 5 * |Groups(bits + zeros)| == |bits + zeros|;
  }

  lemma ZerosLength(n: nat)
    ensures |Zeros(n)| == n
  {
  }

  // ----- The number that is written -----

  /** The digit that a symbol stands for (table 3 of RFC 4648). */
  function Digit32(c: char): int {
    if c <= '9' then c as int - '2' as int + 26 else c as int - 'a' as int
  }

  /** A text as a number in base 32, most significant digit first. */
  function Number32(s: string): int {
    if s == [] then 0 else 32 * Number32(s[..|s| - 1]) + Digit32(s[|s| - 1])
  }

  /** Bytes as a number in base 256, most significant byte first. */
  function Number256(bytes: seq<Byte>): int {
    if bytes == [] then 0 else 256 * Number256(bytes[..|bytes| - 1]) + bytes[|bytes| - 1]
  }

  predicate IsSymbol(c: char) {
    'a' <= c <= 'z' || '2' <= c <= '7'
  }

  lemma AlphabetDigit(v: nat)
    requires v < 32
    ensures IsSymbol(ALPHABET[v]) && Digit32(ALPHABET[v]) == v
  {
  }

  lemma {:induction false} GroupsNumber(bits: seq<Bit>)
    requires |bits| % 5 == 0
    ensures Number32(Groups(bits)) == Value(bits)
    ensures forall c :: c in Groups(bits) ==> IsSymbol(c)
  {
    hide IsSymbol, Digit32, Value;
    if bits == [] {
      assert Value([]) == 0 by { NoBits(); }
    } else {
      var front, group := bits[..|bits| - 5], bits[|bits| - 5..];
      GroupsNumber(front);
      SmallPowers();
      assert bits == front + group;
      ValueOfConcat(front, group);
      AlphabetDigit(Value(group));
      var s := Groups(bits);
      assert s[..|s| - 1] == Groups(front) && s[|s| - 1] == ALPHABET[Value(group)];
    }
  }

  lemma NoBits()
    ensures Value([]) == 0
  {
  }

  lemma {:induction false} AllBitsNumber(bytes: seq<Byte>)
    ensures Value(AllBits(bytes)) == Number256(bytes)
  {
    hide Value, Bits, Power2;
    if bytes == [] {
      NoBits();
    } else {
      var n := |bytes| - 1;
      AllBitsNumber(bytes[..n]);
      SmallPowers();
      ValueOfConcat(AllBits(bytes[..n]), Bits(bytes[n], 8));
      ValueOfBits(bytes[n], 8);
    }
  }

  /**
   * The output is written in the symbols a to z and 2 to 7, and read as a number in base 32 it is the
   * bytes as a number in base 256, shifted by the bits that complete its last symbol.
   */
  lemma EncodedNumber(bytes: seq<Byte>)
    ensures forall c :: c in Encode(bytes) ==> IsSymbol(c)
    ensures |Encode(bytes)| == (8 * |bytes| + 4) / 5
    ensures Number32(Encode(bytes)) == Number256(bytes) * Power2(5 * |Encode(bytes)| - 8 * |bytes|)
  {
    hide Groups, Value, Power2, IsSymbol, Number32, Number256, AllBits;
    var bits := AllBits(bytes);
    var zeros := Zeros(Missing(|bits|));
    EncodedLength(bytes);
    GroupsNumber(bits + zeros);
    ValueOfConcat(bits, zeros);
    ZerosAreZero(|zeros|);
    AllBitsNumber(bytes);
    assert |zeros| == 5 * |Encode(bytes)| - 8 * |bytes|;
  }
}
