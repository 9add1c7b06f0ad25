/**
 UTF-8 as the notes use it (src/core/accounts/PlayerNotes.cpp): a decoder that puts
 U+FFFD for anything that is not UTF-8 and goes on one byte later, and an encoder. The
 masks and shifts of the source are written as divisions and remainders by powers of two.
 */
module Utf8 {
  import opened Seqs
  import opened Octets

  const REPLACEMENT: Scalar := 0xFFFD

  /** A Unicode scalar value, as in section 3 of RFC 3629: any code point but the surrogates. */
  type Scalar = x: int | 0 <= x <= 0x10FFFF && !(0xD800 <= x <= 0xDFFF)

  predicate Continues(text: Bytes, i: nat) {
    i < |text| && text[i] / 0x40 == 2
  }

  function Two(b0: int, b1: int): int {
    b0 % 0x20 * 0x40 + b1 % 0x40
  }

  function Three(b0: int, b1: int, b2: int): int {
    b0 % 0x10 * 0x1000 + b1 % 0x40 * 0x40 + b2 % 0x40
  }

  function Four(b0: int, b1: int, b2: int, b3: int): int {
    b0 % 0x08 * 0x4_0000 + b1 % 0x40 * 0x1000 + b2 % 0x40 * 0x40 + b3 % 0x40
  }

  datatype Step = Step(cp: Scalar, length: nat)

  const INVALID := Step(REPLACEMENT, 1)

  /** One turn of the decoder's loop, at the start of `text`. */
  function DecodeOne(text: Bytes): (r: Step)
    requires text != []
    ensures 0 < r.length <= |text|
  {
    var lead := text[0];
    if lead < 0x80 then Step(lead, 1)
    else if 0xC2 <= lead <= 0xDF && Continues(text, 1) then Step(Two(lead, text[1]), 2)
    else if 0xE0 <= lead <= 0xEF && Continues(text, 1) && Continues(text, 2) then
      var cp := Three(lead, text[1], text[2]);
      if cp < 0x800 || 0xD800 <= cp <= 0xDFFF then INVALID else Step(cp, 3)
    else if 0xF0 <= lead <= 0xF4 && Continues(text, 1) && Continues(text, 2) && Continues(text, 3) then
      var cp := Four(lead, text[1], text[2], text[3]);
      if cp < 0x1_0000 || cp > 0x10FFFF then INVALID else Step(cp, 4)
    else INVALID
  }

  function Decode(text: Bytes): (cps: seq<Scalar>)
    ensures |cps| <= |text|
  {
    if text == [] then []
    else var step := DecodeOne(text); [step.cp] + Decode(text[step.length..])
  }

  function Encode(cp: Scalar): (r: Bytes)
    ensures 1 <= |r| <= 4
  {
    if cp < 0x80 then [cp]
    else if cp < 0x800 then [0xC0 + cp / 0x40, 0x80 + cp % 0x40]
    else if cp < 0x1_0000 then [0xE0 + cp / 0x1000, 0x80 + cp / 0x40 % 0x40, 0x80 + cp % 0x40]
    else [0xF0 + cp / 0x4_0000, 0x80 + cp / 0x1000 % 0x40, 0x80 + cp / 0x40 % 0x40, 0x80 + cp % 0x40]
  }

  function EncodeAll(cps: seq<Scalar>): Bytes {
    if cps == [] then [] else EncodeAll(cps[..|cps| - 1]) + Encode(cps[|cps| - 1])
  }

  // ---------------------------------------------------------------- section 4 of RFC 3629

  predicate Between(text: Bytes, i: nat, low: int, high: int) {
    i < |text| && low <= text[i] <= high
  }

  predicate Tail(text: Bytes, i: nat) {
    Between(text, i, 0x80, 0xBF)
  }

  /** The length of the character of the grammar that starts `text`; 0 when none does. */
  function CharLength(text: Bytes): (n: nat)
    ensures n <= |text|
  {
    if Between(text, 0, 0x00, 0x7F) then 1
    else if Between(text, 0, 0xC2, 0xDF) && Tail(text, 1) then 2
    else if Between(text, 0, 0xE0, 0xE0) && Between(text, 1, 0xA0, 0xBF) && Tail(text, 2) then 3
    else if Between(text, 0, 0xE1, 0xEC) && Tail(text, 1) && Tail(text, 2) then 3
    else if Between(text, 0, 0xED, 0xED) && Between(text, 1, 0x80, 0x9F) && Tail(text, 2) then 3
    else if Between(text, 0, 0xEE, 0xEF) && Tail(text, 1) && Tail(text, 2) then 3
    else if Between(text, 0, 0xF0, 0xF0) && Between(text, 1, 0x90, 0xBF) && Tail(text, 2) && Tail(text, 3) then 4
    else if Between(text, 0, 0xF1, 0xF3) && Tail(text, 1) && Tail(text, 2) && Tail(text, 3) then 4
    else if Between(text, 0, 0xF4, 0xF4) && Between(text, 1, 0x80, 0x8F) && Tail(text, 2) && Tail(text, 3) then 4
    else 0
  }

  /** A sequence of characters of the grammar. */
  predicate WellFormed(text: Bytes) {
    text == [] || (CharLength(text) > 0 && WellFormed(text[CharLength(text)..]))
  }

  // ---------------------------------------------------------------- one character

  lemma TwoSplits(cp: int)
    requires 0x80 <= cp < 0x800
    ensures Two(0xC0 + cp / 0x40, 0x80 + cp % 0x40) == cp && 0xC2 <= 0xC0 + cp / 0x40 <= 0xDF
  {}

  lemma ThreeSplits(cp: int)
    requires 0x800 <= cp < 0x1_0000
    ensures Three(0xE0 + cp / 0x1000, 0x80 + cp / 0x40 % 0x40, 0x80 + cp % 0x40) == cp
    ensures 0xE0 <= 0xE0 + cp / 0x1000 <= 0xEF
  {
    assert cp / 0x1000 == cp / 0x40 / 0x40;
  }

  lemma FourSplits(cp: int)
    requires 0x1_0000 <= cp <= 0x10FFFF
    ensures Four(0xF0 + cp / 0x4_0000, 0x80 + cp / 0x1000 % 0x40, 0x80 + cp / 0x40 % 0x40, 0x80 + cp % 0x40) == cp
    ensures 0xF0 <= 0xF0 + cp / 0x4_0000 <= 0xF4
  {
    assert cp / 0x1000 == cp / 0x40 / 0x40;
    assert cp / 0x4_0000 == cp / 0x1000 / 0x40;
    assert cp == cp / 0x40 * 0x40 + cp % 0x40;
    assert cp / 0x40 == cp / 0x1000 * 0x40 + cp / 0x40 % 0x40;
    assert cp / 0x1000 == cp / 0x4_0000 * 0x40 + cp / 0x1000 % 0x40;
  }

  lemma DecodesTwo(cp: Scalar, text: Bytes)
    requires 0x80 <= cp < 0x800 && Encode(cp) <= text
    ensures DecodeOne(text) == Step(cp, 2)
  {
    TwoSplits(cp);
    assert text[0] == Encode(cp)[0] && text[1] == Encode(cp)[1];
  }

  lemma DecodesThree(cp: Scalar, text: Bytes)
    requires 0x800 <= cp < 0x1_0000 && Encode(cp) <= text
    ensures DecodeOne(text) == Step(cp, 3)
  {
    ThreeSplits(cp);
    assert text[0] == Encode(cp)[0] && text[1] == Encode(cp)[1] && text[2] == Encode(cp)[2];
  }

  lemma DecodesFour(cp: Scalar, text: Bytes)
    requires 0x1_0000 <= cp && Encode(cp) <= text
    ensures DecodeOne(text) == Step(cp, 4)
  {
    FourSplits(cp);
    assert text[0] == Encode(cp)[0] && text[1] == Encode(cp)[1] && text[2] == Encode(cp)[2] && text[3] == Encode(cp)[3];
  }

  /** Whatever follows, the decoder reads an encoded scalar back. */
  lemma DecodesEncoded(cp: Scalar, text: Bytes)
    requires Encode(cp) <= text
    ensures DecodeOne(text) == Step(cp, |Encode(cp)|)
  {
    if cp < 0x80 {
      assert text[0] == Encode(cp)[0];
    } else if cp < 0x800 {
      DecodesTwo(cp, text);
    } else if cp < 0x1_0000 {
      DecodesThree(cp, text);
    } else {
      DecodesFour(cp, text);
    }
  }

  // ---------------------------------------------------------------- decoding what was encoded

  lemma DecodesFirst(cp: Scalar, rest: Bytes)
    ensures Decode(Encode(cp) + rest) == [cp] + Decode(rest)
  {
    var text := Encode(cp) + rest;
    DecodesEncoded(cp, text);
    assert text[|Encode(cp)|..] == rest;
  }

  lemma {:induction false} DecodesPrefix(cps: seq<Scalar>, rest: Bytes)
    ensures Decode(EncodeAll(cps) + rest) == cps + Decode(rest)
    decreases |cps|
  {
    hide Encode, Decode, DecodeOne;
    if cps == [] {
      assert EncodeAll(cps) + rest == rest;
    } else {
      var init, last := cps[..|cps| - 1], cps[|cps| - 1];
      Associates(EncodeAll(init), Encode(last), rest);
      DecodesPrefix(init, Encode(last) + rest);
      DecodesFirst(last, rest);
      Associates(init, [last], Decode(rest));
      assert cps == init + [last];
    }
  }

  /** The decoder undoes the encoder on every sequence of scalar values. */
  lemma DecodeOfEncode(cps: seq<Scalar>)
    ensures Decode(EncodeAll(cps)) == cps
  {
    DecodesPrefix(cps, []);
    assert EncodeAll(cps) + [] == EncodeAll(cps);
  }

  // ---------------------------------------------------------------- encoding what was decoded

  /** Encoded scalars are characters of the grammar. */
  lemma EncodesCharacter(cp: Scalar, text: Bytes)
    requires Encode(cp) <= text
    ensures CharLength(text) == |Encode(cp)|
  {
    var e := Encode(cp);
    assert forall i | 0 <= i < |e| :: text[i] == e[i];
    if 0x80 <= cp < 0x800 {
      TwoSplits(cp);
    } else if 0x800 <= cp < 0x1_0000 {
      ThreeBytes(cp);
    } else if 0x1_0000 <= cp {
      FourBytes(cp);
    }
  }

  lemma ThreeBytes(cp: Scalar)
    requires 0x800 <= cp < 0x1_0000
    ensures cp / 0x1000 == 0 ==> cp / 0x40 % 0x40 >= 0x20
    ensures cp / 0x1000 == 0xD ==> cp / 0x40 % 0x40 <= 0x1F
    ensures 0 <= cp / 0x1000 <= 0xF
  {
    assert cp / 0x1000 == cp / 0x40 / 0x40;
  }

  lemma FourBytes(cp: Scalar)
    requires 0x1_0000 <= cp
    ensures cp / 0x4_0000 == 0 ==> cp / 0x1000 % 0x40 >= 0x10
    ensures cp / 0x4_0000 == 4 ==> cp / 0x1000 % 0x40 <= 0x0F
    ensures 0 <= cp / 0x4_0000 <= 4
  {
    assert cp / 0x4_0000 == cp / 0x1000 / 0x40;
  }

  lemma WellFormedConcat(cp: Scalar, rest: Bytes)
    requires WellFormed(rest)
    ensures WellFormed(Encode(cp) + rest)
  {
    hide Encode, CharLength;
    var text := Encode(cp) + rest;
    EncodesCharacter(cp, text);
    assert text[|Encode(cp)|..] == rest;
  }

  lemma {:induction false} EncodesWellFormed(cps: seq<Scalar>, rest: Bytes)
    requires WellFormed(rest)
    ensures WellFormed(EncodeAll(cps) + rest)
    decreases |cps|
  {
    hide Encode, WellFormed;
    if cps == [] {
      assert EncodeAll(cps) + rest == rest;
    } else {
      var init, last := cps[..|cps| - 1], cps[|cps| - 1];
      WellFormedConcat(last, rest);
      EncodesWellFormed(init, Encode(last) + rest);
      Associates(EncodeAll(init), Encode(last), rest);
    }
  }

  lemma TwoJoins(b0: Byte, b1: Byte)
    requires 0xC2 <= b0 <= 0xDF && 0x80 <= b1 <= 0xBF
    ensures var cp := Two(b0, b1);
      0x80 <= cp < 0x800 && 0xC0 + cp / 0x40 == b0 && 0x80 + cp % 0x40 == b1
  {}

  lemma ThreeJoins(b0: Byte, b1: Byte, b2: Byte)
    requires 0xE0 <= b0 <= 0xEF && 0x80 <= b1 <= 0xBF && 0x80 <= b2 <= 0xBF
    ensures var cp := Three(b0, b1, b2);
      && 0 <= cp < 0x1_0000 && 0xE0 + cp / 0x1000 == b0 && 0x80 + cp / 0x40 % 0x40 == b1 && 0x80 + cp % 0x40 == b2
  {
    var cp := Three(b0, b1, b2);
    assert cp / 0x40 == (b0 - 0xE0) * 0x40 + (b1 - 0x80);
    assert cp / 0x1000 == cp / 0x40 / 0x40;
  }

  lemma FourJoins(b0: Byte, b1: Byte, b2: Byte, b3: Byte)
    requires 0xF0 <= b0 <= 0xF4 && 0x80 <= b1 <= 0xBF && 0x80 <= b2 <= 0xBF && 0x80 <= b3 <= 0xBF
    ensures var cp := Four(b0, b1, b2, b3);
      && 0 <= cp && 0xF0 + cp / 0x4_0000 == b0 && 0x80 + cp / 0x1000 % 0x40 == b1
      && 0x80 + cp / 0x40 % 0x40 == b2 && 0x80 + cp % 0x40 == b3
  {
    var cp := Four(b0, b1, b2, b3);
    assert cp / 0x40 == (b0 - 0xF0) * 0x1000 + (b1 - 0x80) * 0x40 + (b2 - 0x80);
    assert cp / 0x1000 == cp / 0x40 / 0x40 == (b0 - 0xF0) * 0x40 + (b1 - 0x80);
    assert cp / 0x4_0000 == cp / 0x1000 / 0x40;
  }

  /** The decoder reads this character of the grammar, and the encoder writes it again. */
  predicate Agrees(text: Bytes, n: nat)
    requires text != [] && n <= |text|
  {
    DecodeOne(text).length == n && Encode(DecodeOne(text).cp) == text[..n]
  }

  lemma TwoAgrees(text: Bytes)
    requires CharLength(text) == 2
    ensures Agrees(text, 2)
  {
    TwoJoins(text[0], text[1]);
  }

  /** Three bytes of the grammar. */
  predicate ThreeForm(b0: Byte, b1: Byte, b2: Byte) {
    && 0xE0 <= b0 <= 0xEF && 0x80 <= b1 <= 0xBF && 0x80 <= b2 <= 0xBF
    && (b0 == 0xE0 ==> 0xA0 <= b1) && (b0 == 0xED ==> b1 <= 0x9F)
  }

  lemma ThreeRange(b0: Byte, b1: Byte, b2: Byte)
    requires ThreeForm(b0, b1, b2)
    ensures 0x800 <= Three(b0, b1, b2) < 0x1_0000 && !(0xD800 <= Three(b0, b1, b2) <= 0xDFFF)
  {}

  lemma ThreeEncodes(b0: Byte, b1: Byte, b2: Byte)
    requires ThreeForm(b0, b1, b2)
    ensures var cp := Three(b0, b1, b2);
      0x800 <= cp < 0x1_0000 && !(0xD800 <= cp <= 0xDFFF) && Encode(cp) == [b0, b1, b2]
  {
    hide Three;
    ThreeRange(b0, b1, b2);
    ThreeJoins(b0, b1, b2);
  }

  lemma ThreeBytesForm(text: Bytes)
    requires CharLength(text) == 3
    ensures ThreeForm(text[0], text[1], text[2])
  {}

  lemma ThreeAgrees(text: Bytes)
    requires CharLength(text) == 3
    ensures Agrees(text, 3)
  {
    hide CharLength, Three, Encode;
    ThreeBytesForm(text);
    ThreeEncodes(text[0], text[1], text[2]);
    assert text[..3] == [text[0], text[1], text[2]];
  }

  /** Four bytes of the grammar. */
  predicate FourForm(b0: Byte, b1: Byte, b2: Byte, b3: Byte) {
    && 0xF0 <= b0 <= 0xF4 && 0x80 <= b1 <= 0xBF && 0x80 <= b2 <= 0xBF && 0x80 <= b3 <= 0xBF
    && (b0 == 0xF0 ==> 0x90 <= b1) && (b0 == 0xF4 ==> b1 <= 0x8F)
  }

  lemma FourRange(b0: Byte, b1: Byte, b2: Byte, b3: Byte)
    requires FourForm(b0, b1, b2, b3)
    ensures 0x1_0000 <= Four(b0, b1, b2, b3) <= 0x10FFFF
  {}

  lemma FourEncodes(b0: Byte, b1: Byte, b2: Byte, b3: Byte)
    requires FourForm(b0, b1, b2, b3)
    ensures 0x1_0000 <= Four(b0, b1, b2, b3) <= 0x10FFFF && Encode(Four(b0, b1, b2, b3)) == [b0, b1, b2, b3]
  {
    hide Four;
    FourRange(b0, b1, b2, b3);
    FourJoins(b0, b1, b2, b3);
  }

  lemma FourBytesForm(text: Bytes)
    requires CharLength(text) == 4
    ensures FourForm(text[0], text[1], text[2], text[3])
  {}

  lemma FourAgrees(text: Bytes)
    requires CharLength(text) == 4
    ensures Agrees(text, 4)
  {
    hide CharLength, Four, Encode;
    FourBytesForm(text);
    FourEncodes(text[0], text[1], text[2], text[3]);
    assert text[..4] == [text[0], text[1], text[2], text[3]];
  }

  /** A character of the grammar decodes to the scalar that encodes to it. */
  lemma CharacterDecodes(text: Bytes)
    requires CharLength(text) > 0
    ensures Agrees(text, CharLength(text))
  {
    if CharLength(text) == 1 {
    } else {
      hide Agrees;
      match CharLength(text)
      case 2 => TwoAgrees(text);
      case 3 => ThreeAgrees(text);
      case _ => FourAgrees(text);
    }
  }

  lemma EncodeLast(cps: seq<Scalar>, cp: Scalar)
    ensures EncodeAll(cps + [cp]) == EncodeAll(cps) + Encode(cp)
  {
    assert (cps + [cp])[..|cps|] == cps;
  }

  lemma EncodeFirstOfMore(cp: Scalar, init: seq<Scalar>, last: Scalar)
    requires EncodeAll([cp] + init) == Encode(cp) + EncodeAll(init)
    ensures EncodeAll([cp] + (init + [last])) == Encode(cp) + EncodeAll(init + [last])
  {
    hide Encode, EncodeAll;
    Associates([cp], init, [last]);
    EncodeLast([cp] + init, last);
    Associates(Encode(cp), EncodeAll(init), Encode(last));
    EncodeLast(init, last);
  }

  lemma EncodeOne(cp: Scalar)
    ensures EncodeAll([cp]) == Encode(cp)
  {
    hide Encode;
    EncodeLast([], cp);
    assert [] + [cp] == [cp];
    assert EncodeAll([]) + Encode(cp) == Encode(cp);
  }

  lemma {:induction false} EncodeFirst(cp: Scalar, cps: seq<Scalar>)
    ensures EncodeAll([cp] + cps) == Encode(cp) + EncodeAll(cps)
    decreases |cps|
  {
    hide Encode;
    if cps == [] {
      EncodeOne(cp);
      assert [cp] + cps == [cp];
      assert Encode(cp) + EncodeAll(cps) == Encode(cp);
    } else {
      hide EncodeAll;
      var init, last := cps[..|cps| - 1], cps[|cps| - 1];
      EncodeFirst(cp, init);
      EncodeFirstOfMore(cp, init, last);
      assert init + [last] == cps;
    }
  }

  lemma {:induction false} WellFormedReencodes(text: Bytes)
    requires WellFormed(text)
    ensures EncodeAll(Decode(text)) == text
    decreases |text|
  {
    hide Encode, CharLength, DecodeOne;
    if text != [] {
      CharacterDecodes(text);
      var step := DecodeOne(text);
      WellFormedReencodes(text[step.length..]);
      EncodeFirst(step.cp, Decode(text[step.length..]));
      assert text[..step.length] + text[step.length..] == text;
    }
  }

  /** Decoding and encoding again gives the text back exactly when it is UTF-8. */
  lemma ReencodesIffWellFormed(text: Bytes)
    ensures EncodeAll(Decode(text)) == text <==> WellFormed(text)
  {
    if WellFormed(text) {
      WellFormedReencodes(text);
    } else {
      EncodesWellFormed(Decode(text), []);
      assert EncodeAll(Decode(text)) + [] == EncodeAll(Decode(text));
    }
  }

  // ---------------------------------------------------------------- the table of section 3, and stray bytes

  /** Each byte's bits at their weight: 7 in one byte, 11 in two, 16 in three, 21 in four. */
  lemma EncodingMeans(cp: Scalar)
    ensures var b := Encode(cp);
      && (|b| == 1 <==> cp < 0x80) && (|b| == 2 <==> 0x80 <= cp < 0x800)
      && (|b| == 3 <==> 0x800 <= cp < 0x1_0000) && (|b| == 4 <==> 0x1_0000 <= cp)
      && (|b| == 1 ==> b == [cp])
      && (|b| == 2 ==> 0xC0 <= b[0] < 0xE0 && 0x80 <= b[1] < 0xC0
                       && cp == Weighed(b[0] - 0xC0, b[1], 0x80, 0x80) / 4096)
      && (|b| == 3 ==> 0xE0 <= b[0] < 0xF0 && 0x80 <= b[1] < 0xC0 && 0x80 <= b[2] < 0xC0
                       && cp == Weighed(b[0] - 0xE0, b[1], b[2], 0x80) / 64)
      && (|b| == 4 ==> 0xF0 <= b[0] < 0xF8 && 0x80 <= b[1] < 0xC0 && 0x80 <= b[2] < 0xC0 && 0x80 <= b[3] < 0xC0
                       && cp == Weighed(b[0] - 0xF0, b[1], b[2], b[3]))
  {
    if 0x80 <= cp < 0x800 {
      TwoWeigh(cp);
    } else if 0x800 <= cp < 0x1_0000 {
      ThreeWeigh(cp);
    } else if 0x1_0000 <= cp {
      FourWeigh(cp);
    }
  }

  /** The first byte's own bits, then six of each byte that continues it. */
  function Weighed(first: int, b1: int, b2: int, b3: int): int {
    first * 262144 + (b1 - 0x80) * 4096 + (b2 - 0x80) * 64 + (b3 - 0x80)
  }

  lemma TwoWeigh(cp: int)
    requires 0x80 <= cp < 0x800
    ensures Weighed(cp / 0x40, 0x80 + cp % 0x40, 0x80, 0x80) / 4096 == cp && 0 <= cp / 0x40 < 0x20
  {
    assert Weighed(cp / 0x40, 0x80 + cp % 0x40, 0x80, 0x80) == cp * 4096;
  }

  lemma ThreeWeigh(cp: int)
    requires 0x800 <= cp < 0x1_0000
    ensures Weighed(cp / 0x1000, 0x80 + cp / 0x40 % 0x40, 0x80 + cp % 0x40, 0x80) / 64 == cp && 0 <= cp / 0x1000 < 0x10
  {
    assert cp / 0x1000 == cp / 0x40 / 0x40;
    assert Weighed(cp / 0x1000, 0x80 + cp / 0x40 % 0x40, 0x80 + cp % 0x40, 0x80) == cp * 64;
  }

  lemma FourWeigh(cp: int)
    requires 0x1_0000 <= cp <= 0x10FFFF
    ensures Weighed(cp / 0x4_0000, 0x80 + cp / 0x1000 % 0x40, 0x80 + cp / 0x40 % 0x40, 0x80 + cp % 0x40) == cp
    ensures 0 <= cp / 0x4_0000 < 8
  {
    assert cp / 0x1000 == cp / 0x40 / 0x40;
    assert cp / 0x4_0000 == cp / 0x1000 / 0x40;
  }

  lemma NoTwo(text: Bytes)
    requires CharLength(text) == 0 && Between(text, 0, 0xC2, 0xDF)
    ensures !Continues(text, 1)
  {}

  lemma NoThree(text: Bytes)
    requires CharLength(text) == 0 && Between(text, 0, 0xE0, 0xEF) && Continues(text, 1) && Continues(text, 2)
    ensures Three(text[0], text[1], text[2]) < 0x800 || 0xD800 <= Three(text[0], text[1], text[2]) <= 0xDFFF
  {
    assert Tail(text, 1) && Tail(text, 2);
    assert Three(text[0], text[1], text[2]) == (text[0] as int - 0xE0) * 0x1000 + (text[1] as int - 0x80) * 0x40
                                               + (text[2] as int - 0x80);
  }

  lemma NoFour(text: Bytes)
    requires CharLength(text) == 0 && Between(text, 0, 0xF0, 0xF4)
    requires Continues(text, 1) && Continues(text, 2) && Continues(text, 3)
    ensures var cp := Four(text[0], text[1], text[2], text[3]); cp < 0x1_0000 || cp > 0x10FFFF
  {
    assert Tail(text, 1) && Tail(text, 2) && Tail(text, 3);
    assert Four(text[0], text[1], text[2], text[3])
        == Weighed(text[0] as int - 0xF0, text[1], text[2], text[3]);
  }

  lemma StrayIsReplaced(text: Bytes)
    requires text != [] && CharLength(text) == 0
    ensures DecodeOne(text) == Step(0xFFFD, 1)
  {
    hide Three, Four, CharLength;
    if Between(text, 0, 0xC2, 0xDF) {
      NoTwo(text);
    } else if Between(text, 0, 0xE0, 0xEF) && Continues(text, 1) && Continues(text, 2) {
      NoThree(text);
    } else if Between(text, 0, 0xF0, 0xF4) && Continues(text, 1) && Continues(text, 2) && Continues(text, 3) {
      NoFour(text);
    } else {
      NotPlain(text);
    }
  }

  lemma NotPlain(text: Bytes)
    requires text != [] && CharLength(text) == 0
    ensures text[0] >= 0x80
  {}

  /** Any text, character by character: one of the grammar is decoded, any other byte is replaced by U+FFFD. */
  lemma DecodeMeans(text: Bytes)
    requires text != []
    ensures var n := CharLength(text);
      && (n == 0 ==> Decode(text) == [0xFFFD] + Decode(text[1..]))
      && (n > 0 ==> Decode(text) == [Decode(text)[0]] + Decode(text[n..]) && Encode(Decode(text)[0]) == text[..n])
  {
    hide CharLength, DecodeOne, Encode;
    DecodesOneThenRest(text);
    if CharLength(text) == 0 {
      StrayIsReplaced(text);
    } else {
      CharacterDecodes(text);
    }
  }

  // ---------------------------------------------------------------- the loops

  lemma DecodesOneThenRest(text: Bytes)
    requires text != []
    ensures var step := DecodeOne(text); Decode(text) == [step.cp] + Decode(text[step.length..])
  {}

  /** The decoder's loop: an index that moves on by the length of what was read. */
  method DecodeText(text: Bytes) returns (cps: seq<Scalar>)
    ensures cps == Decode(text)
  {
    assert Decode([]) == [];
    hide DecodeOne, Decode;
    cps := [];
    var i := 0;
    while i < |text|
      invariant i <= |text|
      invariant cps + Decode(text[i..]) == Decode(text)
      decreases |text| - i
    {
      var step := DecodeAt(text, i);
      var rest := text[i..];
      assert rest[step.length..] == text[i + step.length..];
      DecodesOneThenRest(rest);
      Associates(cps, [step.cp], Decode(rest[step.length..]));
      cps := cps + [step.cp];
      i := i + step.length;
    }
    assert text[i..] == [];
  }

  method DecodeAt(text: Bytes, i: nat) returns (step: Step)
    requires i < |text|
    ensures step == DecodeOne(text[i..])
  {
    var lead := text[i];
    var cp: int := REPLACEMENT;
    var length := 1;
    if lead < 0x80 {
      cp := lead;
    } else if 0xC2 <= lead <= 0xDF && Continues(text, i + 1) {
      cp := Two(lead, text[i + 1]);
      length := 2;
    } else if 0xE0 <= lead <= 0xEF && Continues(text, i + 1) && Continues(text, i + 2) {
      cp := Three(lead, text[i + 1], text[i + 2]);
      length := 3;
      if cp < 0x800 || 0xD800 <= cp <= 0xDFFF {
        cp := REPLACEMENT;
        length := 1;
      }
    } else if 0xF0 <= lead <= 0xF4 && Continues(text, i + 1) && Continues(text, i + 2) && Continues(text, i + 3) {
      cp := Four(lead, text[i + 1], text[i + 2], text[i + 3]);
      length := 4;
      if cp < 0x1_0000 || cp > 0x10FFFF {
        cp := REPLACEMENT;
        length := 1;
      }
    }
    step := Step(cp, length);
  }

  method EncodeText(cps: seq<Scalar>) returns (text: Bytes)
    ensures text == EncodeAll(cps)
  {
    text := [];
    for i := 0 to |cps|
      invariant text == EncodeAll(cps[..i])
    {
      assert cps[..i + 1][..i] == cps[..i];
      text := text + Encode(cps[i]);
    }
    assert cps[..|cps|] == cps;
  }
}
