/**
 Match cards in URLs (src/core/state/MatchCardUrl.cpp): base64url, section 5 of
 RFC 4648 without padding, and the fragment it travels in. The decoder keeps its bits in
 a 32-bit accumulator that wraps; shifts and masks are written as divisions and
 remainders by powers of two.
 */
module MatchCardUrl {
  import opened Options
  import opened Seqs
  import opened Octets

  type Sextet = x: int | 0 <= x < 64

  /** The 64 characters of the table, as bytes. */
  function Letter(v: Sextet): Byte {
    if v < 26 then 'A' as int + v
    else if v < 52 then 'a' as int + (v - 26)
    else if v < 62 then '0' as int + (v - 52)
    else if v == 62 then '-' as int
    else '_' as int
  }

  const PAD: Byte := '=' as int

  /** The decoder also takes the two characters of plain base64. */
  function ValueOf(c: Byte): Option<Sextet> {
    if 'A' as int <= c <= 'Z' as int then Some(c - 'A' as int)
    else if 'a' as int <= c <= 'z' as int then Some(c - 'a' as int + 26)
    else if '0' as int <= c <= '9' as int then Some(c - '0' as int + 52)
    else if c == '-' as int || c == '+' as int then Some(62)
    else if c == '_' as int || c == '/' as int then Some(63)
    else None
  }

  lemma LettersHaveValues(v: Sextet)
    ensures ValueOf(Letter(v)) == Some(v) && Letter(v) != PAD && Letter(v) != '#' as int
  {}

  // ---------------------------------------------------------------- encoding

  function Group(a: Byte, b: Byte, c: Byte): nat { a * 0x1_0000 + b * 0x100 + c }

  function Sextet0(n: nat): Sextet { n / 0x4_0000 % 0x40 }
  function Sextet1(n: nat): Sextet { n / 0x1000 % 0x40 }
  function Sextet2(n: nat): Sextet { n / 0x40 % 0x40 }
  function Sextet3(n: nat): Sextet { n % 0x40 }

  function EncodeGroup(n: nat): Bytes {
    [Letter(Sextet0(n)), Letter(Sextet1(n)), Letter(Sextet2(n)), Letter(Sextet3(n))]
  }

  function EncodeRest(data: Bytes): Bytes
    requires |data| < 3
  {
    if |data| == 1 then EncodeGroup(Group(data[0], 0, 0))[..2]
    else if |data| == 2 then EncodeGroup(Group(data[0], data[1], 0))[..3]
    else []
  }

  function Encode(data: Bytes): Bytes {
    if |data| >= 3 then EncodeGroup(Group(data[0], data[1], data[2])) + Encode(data[3..]) else EncodeRest(data)
  }

  // ---------------------------------------------------------------- decoding

  type Word = x: int | 0 <= x < 0x1_0000_0000
  type BitCount = x: int | 0 <= x < 8

  datatype Acc = Acc(buf: Word, bits: BitCount, out: Bytes)

  const START := Acc(0, 0, [])

  function Power(n: int): (p: nat)
    ensures p > 0
  {
    match n
    case 0 => 1
    case 1 => 2
    case 2 => 4
    case 3 => 8
    case 4 => 16
    case _ => 32
  }

  /** Six more bits; a byte goes out once eight are there. */
  function Push(s: Acc, v: Sextet): Acc {
    var buf := (s.buf * 64 + v) % 0x1_0000_0000;
    var bits := s.bits + 6;
    if bits < 8 then Acc(buf, bits, s.out)
    else Acc(buf, bits - 8, s.out + [buf / Power(bits - 8) % 256])
  }

  function Feed(s: Acc, text: Bytes): Acc {
    if text == [] then s
    else
      var before := Feed(s, text[..|text| - 1]);
      match ValueOf(text[|text| - 1])
      case None => before
      case Some(v) => Push(before, v)
  }

  /** The text up to the first padding character. */
  function Unpadded(text: Bytes): (r: Bytes)
    ensures r <= text && ('=' as int) !in r
    ensures |r| < |text| ==> text[|r|] == '=' as int
  {
    if text == [] || text[0] == PAD then [] else [text[0]] + Unpadded(text[1..])
  }

  function Decode(text: Bytes): Bytes {
    Feed(START, Unpadded(text)).out
  }

  // ---------------------------------------------------------------- what stays of the wrapping accumulator

  lemma Low12(q: nat, low: nat)
    requires low < 0x1000
    ensures (q * 0x1000 + low) % 0x1000 == low
  {}

  lemma Low8(q: nat, low: nat)
    requires low < 256
    ensures (q * 256 + low) % 256 == low
  {}

  lemma Low6(q: nat, low: nat)
    requires low < 64
    ensures (q * 64 + low) % 64 == low
  {}

  lemma WrapKeepsLow(x: nat)
    ensures x % 0x1_0000_0000 % 0x1000 == x % 0x1000
  {
    assert x == x / 0x1_0000_0000 * 0x10_0000 * 0x1000 + x % 0x1_0000_0000;
  }

  /** The 12 low bits survive the wrap. */
  lemma PushKeepsLow(s: Acc, v: Sextet)
    ensures Push(s, v).buf % 0x1000 == s.buf % 64 * 64 + v
  {
    WrapKeepsLow(s.buf * 64 + v);
    ShiftIn(s.buf, v);
  }

  lemma ShiftIn(buf: Word, v: Sextet)
    ensures (buf * 64 + v) % 0x1000 == buf % 64 * 64 + v
  {
    var q, r := buf / 64, buf % 64;
    assert buf * 64 + v == q * 0x1000 + (r * 64 + v);
    Low12(q, r * 64 + v);
  }

  lemma LowBits(buf: Word, a: Sextet, b: Sextet)
    requires buf % 0x1000 == a * 64 + b
    ensures buf % 64 == b
    ensures buf / 16 % 256 == a * 4 + b / 16
    ensures buf / 4 % 256 == a % 16 * 16 + b / 4
    ensures buf % 256 == a % 4 * 64 + b
  {
    var q := buf / 0x1000;
    LowBitsOf(q, a, b);
    assert buf == q * 0x1000 + a * 64 + b;
  }

  lemma LowBitsOf(q: nat, a: Sextet, b: Sextet)
    ensures var buf := q * 0x1000 + a * 64 + b;
      && buf % 64 == b && buf / 16 % 256 == a * 4 + b / 16
      && buf / 4 % 256 == a % 16 * 16 + b / 4 && buf % 256 == a % 4 * 64 + b
  {
    ByteAt4(q, a, b);
    ByteAt2(q, a, b);
    ByteAt0(q, a, b);
  }

  lemma ByteAt4(q: nat, a: Sextet, b: Sextet)
    ensures (q * 0x1000 + a * 64 + b) / 16 % 256 == a * 4 + b / 16
  {
    assert (q * 0x1000 + a * 64 + b) / 16 == q * 256 + (a * 4 + b / 16);
    Low8(q, a * 4 + b / 16);
  }

  lemma ByteAt2(q: nat, a: Sextet, b: Sextet)
    ensures (q * 0x1000 + a * 64 + b) / 4 % 256 == a % 16 * 16 + b / 4
  {
    assert (q * 0x1000 + a * 64 + b) / 4 == (q * 4 + a / 16) * 256 + (a % 16 * 16 + b / 4);
    Low8(q * 4 + a / 16, a % 16 * 16 + b / 4);
  }

  lemma ByteAt0(q: nat, a: Sextet, b: Sextet)
    ensures (q * 0x1000 + a * 64 + b) % 256 == a % 4 * 64 + b
    ensures (q * 0x1000 + a * 64 + b) % 64 == b
  {
    assert q * 0x1000 + a * 64 + b == (q * 16 + a / 4) * 256 + (a % 4 * 64 + b);
    Low8(q * 16 + a / 4, a % 4 * 64 + b);
    assert q * 0x1000 + a * 64 + b == (q * 64 + a) * 64 + b;
    Low6(q * 64 + a, b);
  }

  /** Letter by letter, from an accumulator with no bits left over. */
  function PushTwo(s: Acc, v0: Sextet, v1: Sextet): Acc { Push(Push(s, v0), v1) }

  lemma PushesTwo(s: Acc, v0: Sextet, v1: Sextet)
    requires s.bits == 0
    ensures var t := PushTwo(s, v0, v1); t.bits == 4 && t.buf % 64 == v1 && t.out == s.out + [v0 * 4 + v1 / 16]
  {
    var one := Push(s, v0);
    PushKeepsLow(s, v0);
    LowBits(one.buf, s.buf % 64, v0);
    PushKeepsLow(one, v1);
    LowBits(Push(one, v1).buf, v0, v1);
  }

  lemma PushesThird(s: Acc, v1: Sextet, v2: Sextet)
    requires s.bits == 4 && s.buf % 64 == v1
    ensures var t := Push(s, v2); t.bits == 2 && t.buf % 64 == v2 && t.out == s.out + [v1 % 16 * 16 + v2 / 4]
  {
    PushKeepsLow(s, v2);
    LowBits(Push(s, v2).buf, v1, v2);
  }

  lemma PushesFourth(s: Acc, v2: Sextet, v3: Sextet)
    requires s.bits == 2 && s.buf % 64 == v2
    ensures var t := Push(s, v3); t.bits == 0 && t.out == s.out + [v2 % 4 * 64 + v3]
  {
    PushKeepsLow(s, v3);
    LowBits(Push(s, v3).buf, v2, v3);
  }

  // ---------------------------------------------------------------- the round trip

  lemma Sextets(a: Byte, b: Byte, c: Byte)
    ensures var n := Group(a, b, c);
      && Sextet0(n) == a / 4 && Sextet1(n) == a % 4 * 16 + b / 16
      && Sextet2(n) == b % 16 * 4 + c / 64 && Sextet3(n) == c % 64
  {
    var n := Group(a, b, c);
    assert n / 0x40 == a * 0x400 + b * 4 + c / 64;
    assert n / 0x1000 == n / 0x40 / 0x40 == a * 16 + b / 16;
    assert n / 0x4_0000 == n / 0x1000 / 0x40 == a / 4;
  }

  lemma FeedConcat(s: Acc, a: Bytes, b: Bytes)
    ensures Feed(s, a + b) == Feed(Feed(s, a), b)
  {
    if b == [] {
      assert a + b == a;
    } else {
      FeedConcat(s, a, b[..|b| - 1]);
      assert (a + b)[..|a + b| - 1] == a + b[..|b| - 1];
    }
  }

  lemma FeedLetter(s: Acc, v: Sextet)
    ensures Feed(s, [Letter(v)]) == Push(s, v)
  {
    LettersHaveValues(v);
    assert [Letter(v)][..0] == [];
  }

  lemma FeedTwo(s: Acc, v0: Sextet, v1: Sextet)
    ensures Feed(s, [Letter(v0), Letter(v1)]) == PushTwo(s, v0, v1)
  {
    FeedConcat(s, [Letter(v0)], [Letter(v1)]);
    FeedLetter(s, v0);
    FeedLetter(Push(s, v0), v1);
    assert [Letter(v0)] + [Letter(v1)] == [Letter(v0), Letter(v1)];
  }

  lemma FeedThree(s: Acc, v0: Sextet, v1: Sextet, v2: Sextet)
    ensures Feed(s, [Letter(v0), Letter(v1), Letter(v2)]) == Push(PushTwo(s, v0, v1), v2)
  {
    FeedTwo(s, v0, v1);
    FeedConcat(s, [Letter(v0), Letter(v1)], [Letter(v2)]);
    FeedLetter(PushTwo(s, v0, v1), v2);
    assert [Letter(v0), Letter(v1)] + [Letter(v2)] == [Letter(v0), Letter(v1), Letter(v2)];
  }

  lemma FeedFour(s: Acc, v0: Sextet, v1: Sextet, v2: Sextet, v3: Sextet)
    ensures Feed(s, [Letter(v0), Letter(v1), Letter(v2), Letter(v3)]) == Push(Push(PushTwo(s, v0, v1), v2), v3)
  {
    FeedThree(s, v0, v1, v2);
    FeedConcat(s, [Letter(v0), Letter(v1), Letter(v2)], [Letter(v3)]);
    FeedLetter(Push(PushTwo(s, v0, v1), v2), v3);
    assert [Letter(v0), Letter(v1), Letter(v2)] + [Letter(v3)]
        == [Letter(v0), Letter(v1), Letter(v2), Letter(v3)];
  }

  lemma BytesJoin(a: Byte, b: Byte, c: Byte)
    ensures var v0, v1, v2, v3 := a / 4, a % 4 * 16 + b / 16, b % 16 * 4 + c / 64, c % 64;
      v0 * 4 + v1 / 16 == a && v1 % 16 * 16 + v2 / 4 == b && v2 % 4 * 64 + v3 == c
  {}

  lemma FourReadBack(s: Acc, v0: Sextet, v1: Sextet, v2: Sextet, v3: Sextet)
    requires s.bits == 0
    ensures var t := Feed(s, [Letter(v0), Letter(v1), Letter(v2), Letter(v3)]);
      t.bits == 0 && t.out == s.out + [v0 * 4 + v1 / 16] + [v1 % 16 * 16 + v2 / 4] + [v2 % 4 * 64 + v3]
  {
    FeedFour(s, v0, v1, v2, v3);
    PushesTwo(s, v0, v1);
    PushesThird(PushTwo(s, v0, v1), v1, v2);
    PushesFourth(Push(PushTwo(s, v0, v1), v2), v2, v3);
  }

  lemma GroupReadsBack(s: Acc, a: Byte, b: Byte, c: Byte)
    requires s.bits == 0
    ensures var t := Feed(s, EncodeGroup(Group(a, b, c))); t.bits == 0 && t.out == s.out + [a, b, c]
  {
    hide Feed, Letter, Group, Sextet0, Sextet1, Sextet2, Sextet3;
    var n := Group(a, b, c);
    Sextets(a, b, c);
    BytesJoin(a, b, c);
    FourReadBack(s, Sextet0(n), Sextet1(n), Sextet2(n), Sextet3(n));
    assert s.out + [a] + [b] + [c] == s.out + [a, b, c];
  }

  lemma OneReadsBack(s: Acc, a: Byte)
    requires s.bits == 0
    ensures Feed(s, EncodeRest([a])).out == s.out + [a]
  {
    hide Feed, Letter, Group, Sextet0, Sextet1, Sextet2, Sextet3, PushTwo;
    var n := Group(a, 0, 0);
    Sextets(a, 0, 0);
    BytesJoin(a, 0, 0);
    PushesTwo(s, Sextet0(n), Sextet1(n));
    FeedTwo(s, Sextet0(n), Sextet1(n));
    FirstTwo(n);
  }

  lemma FirstTwo(n: nat)
    ensures EncodeGroup(n)[..2] == [Letter(Sextet0(n)), Letter(Sextet1(n))]
  {}

  lemma ThreeReadBack(s: Acc, v0: Sextet, v1: Sextet, v2: Sextet)
    requires s.bits == 0
    ensures Feed(s, [Letter(v0), Letter(v1), Letter(v2)]).out
         == s.out + [v0 * 4 + v1 / 16] + [v1 % 16 * 16 + v2 / 4]
  {
    PushesTwo(s, v0, v1);
    FeedThree(s, v0, v1, v2);
    PushesThird(PushTwo(s, v0, v1), v1, v2);
  }

  lemma TwoReadBack(s: Acc, a: Byte, b: Byte)
    requires s.bits == 0
    ensures Feed(s, EncodeRest([a, b])).out == s.out + [a] + [b]
  {
    hide Feed, Letter, Group, Sextet0, Sextet1, Sextet2, Sextet3;
    var n := Group(a, b, 0);
    Sextets(a, b, 0);
    BytesJoin(a, b, 0);
    ThreeReadBack(s, Sextet0(n), Sextet1(n), Sextet2(n));
    FirstThree(n);
  }

  lemma FirstThree(n: nat)
    ensures EncodeGroup(n)[..3] == [Letter(Sextet0(n)), Letter(Sextet1(n)), Letter(Sextet2(n))]
  {}

  lemma Appends(out: Bytes, first: Bytes, rest: Bytes, all: Bytes)
    requires first + rest == all
    ensures out + first + rest == out + all
  {}

  lemma GroupThenRest(s: Acc, a: Byte, b: Byte, c: Byte, text: Bytes, rest: Bytes)
    requires s.bits == 0
    requires var t := Feed(s, EncodeGroup(Group(a, b, c))); Feed(t, text).out == t.out + rest
    ensures Feed(s, EncodeGroup(Group(a, b, c)) + text).out == s.out + [a, b, c] + rest
  {
    GroupReadsBack(s, a, b, c);
    FeedConcat(s, EncodeGroup(Group(a, b, c)), text);
  }

  lemma ShortReadsBack(s: Acc, data: Bytes)
    requires s.bits == 0 && |data| < 3
    ensures Feed(s, EncodeRest(data)).out == s.out + data
  {
    if |data| == 2 {
      TwoReadBack(s, data[0], data[1]);
      assert data == [data[0], data[1]];
      Associates(s.out, [data[0]], [data[1]]);
    } else if |data| == 1 {
      OneReadsBack(s, data[0]);
      assert data == [data[0]];
    } else {
      assert data == [];
    }
  }

  lemma {:induction false} FeedReadsBack(s: Acc, data: Bytes)
    requires s.bits == 0
    ensures Feed(s, Encode(data)).out == s.out + data
    decreases |data|
  {
    if |data| >= 3 {
      var a, b, c, rest := data[0], data[1], data[2], data[3..];
      GroupReadsBack(s, a, b, c);
      FeedReadsBack(Feed(s, EncodeGroup(Group(a, b, c))), rest);
      GroupThenRest(s, a, b, c, Encode(rest), rest);
      Appends(s.out, [a, b, c], rest, data);
    } else {
      ShortReadsBack(s, data);
    }
  }

  predicate IsLetter(c: Byte) {
    ValueOf(c).Some? && c == Letter(ValueOf(c).value)
  }

  predicate AllLetters(text: Bytes) {
    forall i | 0 <= i < |text| :: IsLetter(text[i])
  }

  lemma GroupIsLetters(n: nat)
    ensures AllLetters(EncodeGroup(n))
  {
    LettersHaveValues(Sextet0(n));
    LettersHaveValues(Sextet1(n));
    LettersHaveValues(Sextet2(n));
    LettersHaveValues(Sextet3(n));
  }

  /** Only letters are written: no padding, nothing that ends a fragment. */
  lemma {:induction false} EncodesLetters(data: Bytes)
    ensures AllLetters(Encode(data))
    ensures |Encode(data)| == (|data| * 4 + 2) / 3
    decreases |data|
  {
    if |data| >= 3 {
      GroupIsLetters(Group(data[0], data[1], data[2]));
      EncodesLetters(data[3..]);
    } else if |data| == 2 {
      GroupIsLetters(Group(data[0], data[1], 0));
    } else if |data| == 1 {
      GroupIsLetters(Group(data[0], 0, 0));
    }
  }

  lemma LettersAreUnpadded(text: Bytes)
    requires PAD !in text
    ensures Unpadded(text) == text
  {}

  /** Decoding undoes encoding on every byte string. */
  lemma DecodeOfEncode(data: Bytes)
    ensures Decode(Encode(data)) == data
  {
    EncodesLetters(data);
    assert forall i | 0 <= i < |Encode(data)| :: IsLetter(Encode(data)[i]);
    LettersAreUnpadded(Encode(data));
    FeedReadsBack(START, data);
  }

  // ---------------------------------------------------------------- the table and the bits

  /** The table of section 5 of RFC 4648. */
  lemma TableIsStandard(v: Sextet)
    ensures v < 26 ==> Letter(v) as char == "ABCDEFGHIJKLMNOPQRSTUVWXYZ"[v]
    ensures 26 <= v < 52 ==> Letter(v) as char == "abcdefghijklmnopqrstuvwxyz"[v - 26]
    ensures 52 <= v ==> Letter(v) as char == "0123456789-_"[v - 52]
  {}

  /** Read back by the decoder, which also takes the two characters of section 4 that differ. */
  lemma TableIsReadBack(c: Byte, v: Sextet)
    ensures ValueOf(c) == Some(v) <==> c == Letter(v) || (v == 62 && c as char == '+') || (v == 63 && c as char == '/')
  {}

  /** The number a run of letters spells, six bits each, the first the highest. */
  function Bits(text: Bytes): nat {
    if text == [] then 0
    else
      var v := ValueOf(text[|text| - 1]);
      Bits(text[..|text| - 1]) * 64 + (if v.Some? then v.value else 0)
  }

  lemma BitsPushed(text: Bytes, v: Sextet)
    ensures Bits(text + [Letter(v)]) == Bits(text) * 64 + v
  {
    LettersHaveValues(v);
    assert (text + [Letter(v)])[..|text|] == text;
  }

  lemma BitsOfTwo(v0: Sextet, v1: Sextet)
    ensures Bits([Letter(v0), Letter(v1)]) == v0 * 64 + v1
  {
    hide Letter, ValueOf;
    BitsPushed([], v0);
    BitsPushed([Letter(v0)], v1);
    assert [] + [Letter(v0)] == [Letter(v0)] && [Letter(v0)] + [Letter(v1)] == [Letter(v0), Letter(v1)];
  }

  lemma BitsOfThree(v0: Sextet, v1: Sextet, v2: Sextet)
    ensures Bits([Letter(v0), Letter(v1), Letter(v2)]) == (v0 * 64 + v1) * 64 + v2
  {
    hide Letter, ValueOf;
    BitsOfTwo(v0, v1);
    BitsPushed([Letter(v0), Letter(v1)], v2);
    assert [Letter(v0), Letter(v1)] + [Letter(v2)] == [Letter(v0), Letter(v1), Letter(v2)];
  }

  lemma BitsOfFour(v0: Sextet, v1: Sextet, v2: Sextet, v3: Sextet)
    ensures Bits([Letter(v0), Letter(v1), Letter(v2), Letter(v3)]) == ((v0 * 64 + v1) * 64 + v2) * 64 + v3
  {
    hide Letter, ValueOf;
    BitsOfThree(v0, v1, v2);
    BitsPushed([Letter(v0), Letter(v1), Letter(v2)], v3);
    assert [Letter(v0), Letter(v1), Letter(v2)] + [Letter(v3)] == [Letter(v0), Letter(v1), Letter(v2), Letter(v3)];
  }

  /** 24 bits, and 16 or 8 of them followed by zeros up to the next letter. */
  function Three(a: int, b: int, c: int): int { a * 65536 + b * 256 + c }
  function Two(a: int, b: int): int { (a * 256 + b) * 4 }
  function One(a: int): int { a * 16 }

  lemma SextetsSpell(a: Byte, b: Byte, c: Byte)
    ensures ((a / 4 * 64 + (a % 4 * 16 + b / 16)) * 64 + (b % 16 * 4 + c / 64)) * 64 + c % 64 == Three(a, b, c)
    ensures (a / 4 * 64 + (a % 4 * 16 + b / 16)) * 64 + b % 16 * 4 == Two(a, b)
    ensures a / 4 * 64 + a % 4 * 16 == One(a)
  {}

  /** The letters at `at` spell `v`. */
  predicate Spells(text: Bytes, at: nat, n: nat, v: int) {
    at + n <= |text| && Bits(text[at..at + n]) == v
  }

  lemma GroupSpells(a: Byte, b: Byte, c: Byte)
    ensures Bits(EncodeGroup(Group(a, b, c))) == Three(a, b, c)
  {
    hide Letter, Group, Sextet0, Sextet1, Sextet2, Sextet3, Bits, Three;
    SextetsSpell(a, b, c);
    Sextets(a, b, c);
    var n := Group(a, b, c);
    BitsOfFour(Sextet0(n), Sextet1(n), Sextet2(n), Sextet3(n));
  }

  lemma RestSpells(a: Byte, b: Byte)
    ensures Bits(EncodeGroup(Group(a, b, 0))[..3]) == Two(a, b)
    ensures Bits(EncodeGroup(Group(a, 0, 0))[..2]) == One(a)
  {
    hide Letter, Group, Sextet0, Sextet1, Sextet2, Sextet3, Bits, Two, One;
    SextetsSpell(a, b, 0);
    SextetsSpell(a, 0, 0);
    Sextets(a, b, 0);
    Sextets(a, 0, 0);
    var n2, n1 := Group(a, b, 0), Group(a, 0, 0);
    BitsOfThree(Sextet0(n2), Sextet1(n2), Sextet2(n2));
    BitsOfTwo(Sextet0(n1), Sextet1(n1));
    FirstThree(n2);
    FirstTwo(n1);
  }

  lemma SpellsBehind(first: Bytes, rest: Bytes, at: nat, n: nat, v: int)
    requires Spells(rest, at, n, v)
    ensures Spells(first + rest, |first| + at, n, v)
  {
    hide Bits;
    assert (first + rest)[|first| + at..|first| + at + n] == rest[at..at + n];
  }

  lemma SpellsFirst(first: Bytes, rest: Bytes)
    ensures Spells(first + rest, 0, |first|, Bits(first))
  {
    hide Bits;
    assert (first + rest)[0..|first|] == first;
  }

  lemma EncodesGroup(data: Bytes)
    requires |data| >= 3
    ensures |EncodeGroup(Group(data[0], data[1], data[2]))| == 4
    ensures Encode(data) == EncodeGroup(Group(data[0], data[1], data[2])) + Encode(data[3..])
  {}

  lemma EncodesRest(data: Bytes)
    ensures |data| == 2 ==> Encode(data) == EncodeGroup(Group(data[0], data[1], 0))[..3] + []
    ensures |data| == 1 ==> Encode(data) == EncodeGroup(Group(data[0], 0, 0))[..2] + []
  {
    hide Group, Letter, Sextet0, Sextet1, Sextet2, Sextet3;
  }

  lemma GroupHasFour(n: nat)
    ensures |EncodeGroup(n)| == 4
  {}

  lemma FirstGroupSpells(data: Bytes)
    requires data != []
    ensures |data| >= 3 ==> Spells(Encode(data), 0, 4, Three(data[0], data[1], data[2]))
    ensures |data| == 2 ==> Spells(Encode(data), 0, 3, Two(data[0], data[1]))
    ensures |data| == 1 ==> Spells(Encode(data), 0, 2, One(data[0]))
  {
    hide Bits, Group, EncodeGroup, Encode, Three, Two, One, Spells;
    if |data| >= 3 {
      GroupSpells(data[0], data[1], data[2]);
      EncodesGroup(data);
      SpellsFirst(EncodeGroup(Group(data[0], data[1], data[2])), Encode(data[3..]));
    } else if |data| == 2 {
      RestSpells(data[0], data[1]);
      EncodesRest(data);
      GroupHasFour(Group(data[0], data[1], 0));
      SpellsFirst(EncodeGroup(Group(data[0], data[1], 0))[..3], []);
    } else {
      RestSpells(data[0], 0);
      EncodesRest(data);
      GroupHasFour(Group(data[0], 0, 0));
      SpellsFirst(EncodeGroup(Group(data[0], 0, 0))[..2], []);
    }
  }

  /** Four letters spell the 24 bits of their three bytes; a rest of two or one is followed by zero bits. */
  lemma {:induction false} EncodesBits(data: Bytes, i: nat)
    requires 3 * i < |data|
    ensures |data| >= 3 * i + 3 ==> Spells(Encode(data), 4 * i, 4, Three(data[3 * i], data[3 * i + 1], data[3 * i + 2]))
    ensures |data| == 3 * i + 2 ==> Spells(Encode(data), 4 * i, 3, Two(data[3 * i], data[3 * i + 1]))
    ensures |data| == 3 * i + 1 ==> Spells(Encode(data), 4 * i, 2, One(data[3 * i]))
    decreases i
  {
    hide Spells, Encode, EncodeGroup, Group, Three, Two, One;
    if i == 0 {
      FirstGroupSpells(data);
    } else {
      var rest, group, k := data[3..], EncodeGroup(Group(data[0], data[1], data[2])), i - 1;
      EncodesGroup(data);
      EncodesBits(rest, k);
      assert rest[3 * k] == data[3 * i];
      if |data| >= 3 * i + 3 {
        assert rest[3 * k + 1] == data[3 * i + 1] && rest[3 * k + 2] == data[3 * i + 2];
        SpellsBehind(group, Encode(rest), 4 * k, 4, Three(rest[3 * k], rest[3 * k + 1], rest[3 * k + 2]));
      } else if |data| == 3 * i + 2 {
        assert rest[3 * k + 1] == data[3 * i + 1];
        SpellsBehind(group, Encode(rest), 4 * k, 3, Two(rest[3 * k], rest[3 * k + 1]));
      } else {
        SpellsBehind(group, Encode(rest), 4 * k, 2, One(rest[3 * k]));
      }
    }
  }

  // ---------------------------------------------------------------- any other text

  function Significant(text: Bytes): Bytes {
    if text == [] then []
    else
      var before := Significant(text[..|text| - 1]);
      if ValueOf(text[|text| - 1]).Some? then before + [text[|text| - 1]] else before
  }

  /** Characters outside both alphabets are skipped; what comes out is every full byte of the rest. */
  lemma {:induction false} FeedSkipsJunk(s: Acc, text: Bytes)
    ensures Feed(s, text) == Feed(s, Significant(text))
    ensures 8 * |Feed(s, text).out| + Feed(s, text).bits == 8 * |s.out| + s.bits + 6 * |Significant(text)|
  {
    if text != [] {
      var init := text[..|text| - 1];
      FeedSkipsJunk(s, init);
      if ValueOf(text[|text| - 1]).Some? {
        assert Significant(text)[..|Significant(init)|] == Significant(init);
      }
    }
  }

  lemma DecodeSkipsJunk(text: Bytes)
    ensures |Decode(text)| == 6 * |Significant(Unpadded(text))| / 8
    ensures Decode(text) == Feed(START, Significant(Unpadded(text))).out
  {
    FeedSkipsJunk(START, Unpadded(text));
  }

  /** The number bytes spell, the first the highest. */
  function Number(data: Bytes): nat {
    if data == [] then 0 else Number(data[..|data| - 1]) * 256 + data[|data| - 1]
  }

  lemma NumberPushed(data: Bytes, b: Byte)
    ensures Number(data + [b]) == Number(data) * 256 + b
  {
    assert (data + [b])[..|data|] == data;
  }

  /** The letters fed so far spell the bytes that came out, followed by the bits that wait. */
  predicate Accounts(s: Acc, bits: nat) {
    match s.bits
    case 0 => bits == Number(s.out)
    case 2 => bits == Number(s.out) * 4 + s.buf % 64 % 4
    case 4 => bits == Number(s.out) * 16 + s.buf % 64 % 16
    case 6 => bits == Number(s.out) * 64 + s.buf % 64
    case _ => false
  }

  lemma PushAccounts(s: Acc, bits: nat, v: Sextet)
    requires Accounts(s, bits)
    ensures Accounts(Push(s, v), bits * 64 + v)
  {
    var next := Push(s, v);
    var r := s.buf % 64;
    PushKeepsLow(s, v);
    LowBits(next.buf, r, v);
    if s.bits > 0 {
      NumberPushed(s.out, next.out[|s.out|]);
      assert next.out == s.out + [next.out[|s.out|]];
    }
    hide Number;
  }

  lemma {:induction false} FeedAccounts(text: Bytes)
    ensures Accounts(Feed(START, text), Bits(Significant(text)))
  {
    hide Push, Accounts, ValueOf;
    if text == [] {
      NothingAccounts();
    } else {
      var init, last := text[..|text| - 1], text[|text| - 1];
      FeedAccounts(init);
      if ValueOf(last).Some? {
        PushAccounts(Feed(START, init), Bits(Significant(init)), ValueOf(last).value);
        assert Significant(text)[..|Significant(init)|] == Significant(init);
      }
    }
  }

  lemma NothingAccounts()
    ensures Accounts(START, Bits([]))
  {}

  /** What is decoded from any text are the bits its letters spell, without the last few that fill no byte. */
  lemma DecodeKeepsBits(text: Bytes)
    ensures var letters := Significant(Unpadded(text)); var left := 6 * |letters| % 8;
      && 8 * |Decode(text)| + left == 6 * |letters|
      && (left == 0 ==> Number(Decode(text)) == Bits(letters))
      && (left == 2 ==> Number(Decode(text)) == Bits(letters) / 4)
      && (left == 4 ==> Number(Decode(text)) == Bits(letters) / 16)
      && (left == 6 ==> Number(Decode(text)) == Bits(letters) / 64)
  {
    hide Feed, Number, Bits, Significant, Unpadded, Accounts;
    var s, letters := Feed(START, Unpadded(text)), Significant(Unpadded(text));
    assert s.bits == 6 * |letters| % 8 && 8 * |Decode(text)| + s.bits == 6 * |letters| by {
      hide Decode;
      FeedAccounts(Unpadded(text));
      FeedSkipsJunk(START, Unpadded(text));
      AccountsMean(s, Bits(letters));
      Remainder(|s.out|, s.bits, 6 * |letters|);
    }
    FeedAccounts(Unpadded(text));
    AccountsMean(s, Bits(letters));
  }

  lemma Remainder(bytes: nat, left: nat, total: nat)
    requires total == 8 * bytes + left && left < 8
    ensures total % 8 == left
  {
    assert 8 * (total / 8 - bytes) == left - total % 8;
  }

  /** The bits that wait are the low ones. */
  lemma AccountsMean(s: Acc, bits: nat)
    requires Accounts(s, bits)
    ensures s.bits == 0 || s.bits == 2 || s.bits == 4 || s.bits == 6
    ensures s.bits == 0 ==> Number(s.out) == bits
    ensures s.bits == 2 ==> Number(s.out) == bits / 4
    ensures s.bits == 4 ==> Number(s.out) == bits / 16
    ensures s.bits == 6 ==> Number(s.out) == bits / 64
  {
    hide Number;
  }

  // ---------------------------------------------------------------- the URL

  /** The bytes of a string literal. */
  function Ascii(s: string): Bytes {
    seq(|s|, i requires 0 <= i < |s| => s[i] as int % 256)
  }

  const SITE := "https://omnistats.org/card"
  const VERSION := "1."

  function BuildUrl(payload: Bytes): Bytes {
    Ascii(SITE) + Ascii("#") + Ascii(VERSION) + Encode(payload)
  }

  function Fragment(url: Bytes): Bytes {
    if url == [] then [] else if url[0] == '#' as int then url[1..] else Fragment(url[1..])
  }

  /** The bytes a URL, or its fragment alone, carries to the JSON parser. */
  function Payload(url: Bytes): Option<Bytes> {
    var fragment := if ('#' as int) in url then Fragment(url) else url;
    if !(Ascii(VERSION) <= fragment) then None
    else
      var text := fragment[|VERSION|..];
      if text == [] || Decode(text) == [] then None else Some(Decode(text))
  }

  lemma {:induction false} FragmentAfter(before: Bytes, rest: Bytes)
    requires ('#' as int) !in before
    ensures Fragment(before + Ascii("#") + rest) == rest
  {
    var url := before + Ascii("#") + rest;
    if before == [] {
      assert url[1..] == rest;
    } else {
      assert url[1..] == before[1..] + Ascii("#") + rest;
      FragmentAfter(before[1..], rest);
    }
  }

  lemma PayloadOfFragment(payload: Bytes, fragment: Bytes)
    requires fragment == Ascii(VERSION) + Encode(payload)
    ensures fragment[|VERSION|..] == Encode(payload) && ('#' as int) !in fragment
  {
    EncodesLetters(payload);
    assert forall i | 0 <= i < |Encode(payload)| :: IsLetter(Encode(payload)[i]);
  }

  lemma FragmentStripsBack(payload: Bytes)
    ensures var fragment := Ascii(VERSION) + Encode(payload);
      ('#' as int) !in fragment && Payload(fragment) == if payload == [] then None else Some(payload)
  {
    var fragment := Ascii(VERSION) + Encode(payload);
    PayloadOfFragment(payload, fragment);
    DecodeOfEncode(payload);
  }

  lemma PayloadAfterHash(before: Bytes, fragment: Bytes)
    requires ('#' as int) !in before && ('#' as int) !in fragment
    ensures Payload(before + Ascii("#") + fragment) == Payload(fragment)
  {
    FragmentAfter(before, fragment);
    assert (before + Ascii("#") + fragment)[|before|] == '#' as int;
  }

  /** A card's URL, and its fragment alone, strip back to the payload; an empty payload is no card. */
  lemma UrlStripsBack(payload: Bytes)
    ensures Payload(BuildUrl(payload)) == if payload == [] then None else Some(payload)
    ensures Payload(Ascii(VERSION) + Encode(payload)) == if payload == [] then None else Some(payload)
  {
    var fragment := Ascii(VERSION) + Encode(payload);
    FragmentStripsBack(payload);
    SiteIsClean();
    PayloadAfterHash(Ascii(SITE), fragment);
    Associates(Ascii(SITE) + Ascii("#"), Ascii(VERSION), Encode(payload));
  }

  /** What a card's URL looks like, and what any URL carries: the text behind its first hash sign and `1.`. */
  lemma UrlMeans(payload: Bytes, before: Bytes, fragment: Bytes)
    requires ('#' as int) !in before
    ensures BuildUrl(payload) == Ascii("https://omnistats.org/card#1.") + Encode(payload)
    ensures Payload(before + Ascii("#") + fragment)
         == (if Ascii("1.") <= fragment && Decode(fragment[2..]) != [] then Some(Decode(fragment[2..])) else None)
  {
    assert Ascii("https://omnistats.org/card") + Ascii("#") + Ascii("1.") == Ascii("https://omnistats.org/card#1.");
    hide Encode, Decode;
    FragmentAfter(before, fragment);
    assert (before + Ascii("#") + fragment)[|before|] == '#' as int;
    NothingDecodes();
  }

  lemma NothingDecodes()
    ensures Decode([]) == []
  {}

  lemma SiteIsClean()
    ensures ('#' as int) !in Ascii(SITE)
  {
    assert forall i | 0 <= i < |SITE| :: SITE[i] != '#' && SITE[i] as int < 128;
  }

  // ---------------------------------------------------------------- the loops

  method EncodeText(data: Bytes) returns (out: Bytes)
    ensures out == Encode(data)
  {
    out := [];
    var i := 0;
    while i + 3 <= |data|
      invariant i <= |data|
      invariant out + Encode(data[i..]) == Encode(data)
      decreases |data| - i
    {
      var n := Group(data[i], data[i + 1], data[i + 2]);
      ghost var rest := data[i..];
      assert rest[3..] == data[i + 3..];
      Appends(out, EncodeGroup(n), Encode(rest[3..]), Encode(rest));
      out := out + EncodeGroup(n);
      i := i + 3;
    }
    ghost var rest := data[i..];
    if |data| - i == 1 {
      var n := Group(data[i], 0, 0);
      out := out + [Letter(Sextet0(n)), Letter(Sextet1(n))];
    } else if |data| - i == 2 {
      var n := Group(data[i], data[i + 1], 0);
      out := out + [Letter(Sextet0(n)), Letter(Sextet1(n)), Letter(Sextet2(n))];
    }
  }

  lemma FeedsOne(text: Bytes, i: nat)
    requires i < |text|
    ensures var before := Feed(START, text[..i]);
      Feed(START, text[..i + 1]) == match ValueOf(text[i]) case None => before case Some(v) => Push(before, v)
  {
    hide Push, ValueOf;
    assert text[..i + 1][..i] == text[..i];
  }

  method PushBits(buf: Word, bits: BitCount, out: Bytes, v: Sextet) returns (buf': Word, bits': BitCount, out': Bytes)
    ensures Acc(buf', bits', out') == Push(Acc(buf, bits, out), v)
  {
    buf', bits', out' := (buf * 64 + v) % 0x1_0000_0000, 0, out;
    if bits + 6 >= 8 {
      bits' := bits + 6 - 8;
      out' := out + [buf' / Power(bits') % 256];
    } else {
      bits' := bits + 6;
    }
  }

  method DecodeText(text: Bytes) returns (out: Bytes)
    ensures out == Decode(text)
  {
    assert Feed(START, []) == START;
    hide Feed, Unpadded, ValueOf, Push;
    ghost var unpadded := Unpadded(text);
    out := [];
    var buf: Word := 0;
    var bits: BitCount := 0;
    var i := 0;
    while i < |text| && text[i] != PAD
      invariant i <= |unpadded|
      invariant Acc(buf, bits, out) == Feed(START, unpadded[..i])
    {
      UnpaddedGoesOn(text, i);
      FeedsOne(unpadded, i);
      var value := ValueOf(text[i]);
      if value.Some? {
        buf, bits, out := PushBits(buf, bits, out, value.value);
      }
      i := i + 1;
    }
    assert unpadded[..i] == unpadded;
  }

  lemma UnpaddedGoesOn(text: Bytes, i: nat)
    requires i <= |Unpadded(text)| && i < |text| && text[i] != PAD
    ensures i < |Unpadded(text)| && Unpadded(text)[i] == text[i]
  {}
}
