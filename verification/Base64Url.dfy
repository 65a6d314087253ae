/** The bit-by-bit base64url encoder and section 5 of RFC 4648.
    Models GetBits and Base64UrlEncode of libs/internal/src/encoding/base_64.cpp. */
module Base64Url {
  import opened Wrappers

  type Byte = b: int | 0 <= b < 256
  type Sextet = v: int | 0 <= v < 64

  const UPPER: string := "ABCDEFGHIJKLMNOPQRSTUVWXYZ"
  const LOWER: string := "abcdefghijklmnopqrstuvwxyz"
  const OTHER: string := "0123456789-_"

  /** The URL-safe alphabet. */
  const TABLE: string := UPPER + LOWER + OTHER

  const PAD: char := '='

  /** b >> n, and whether its lowest bit is set. */
  function Shifted(b: nat, n: nat): nat { if n == 0 then b else Shifted(b, n - 1) / 2 }

  predicate BitOf(b: nat, n: nat) { Shifted(b, n) % 2 == 1 }

  /** Bit k of the input, counted from the highest bit of the first byte; clear past the end. */
  predicate BitAt(input: seq<Byte>, k: nat) {
    k < 8 * |input| && BitOf(input[k / 8], 7 - k % 8)
  }

  /** The number a six-bit set stands for; index 0 is the lowest bit. */
  function ToNumber(bits: seq<bool>): (v: Sextet)
    requires |bits| == 6
  {
    (if bits[5] then 32 else 0) + (if bits[4] then 16 else 0) + (if bits[3] then 8 else 0)
    + (if bits[2] then 4 else 0) + (if bits[1] then 2 else 0) + (if bits[0] then 1 else 0)
  }

  /** Six bits from `start`, highest first. */
  function BitsAt(input: seq<Byte>, start: nat): seq<bool> {
    [BitAt(input, start + 5), BitAt(input, start + 4), BitAt(input, start + 3),
     BitAt(input, start + 2), BitAt(input, start + 1), BitAt(input, start)]
  }

  method GetBits(start: nat, count: nat, input: seq<Byte>) returns (bits: seq<bool>)
    requires count <= 6 && start + count <= 8 * |input|
    ensures |bits| == 6
    ensures forall i :: 0 <= i < 6 ==> bits[i] == (5 - i < count && BitAt(input, start + 5 - i))
  {
    bits := [false, false, false, false, false, false];
    var outIndex := 0;
    while outIndex < count
      invariant 0 <= outIndex <= count && |bits| == 6
      invariant forall i :: 0 <= i < 6 ==> bits[i] == (5 - i < outIndex && BitAt(input, start + 5 - i))
    {
      var bitIndex := start + outIndex;
      var bitInByte := 7 - bitIndex % 8;
      bits := bits[6 - 1 - outIndex := BitOf(input[bitIndex / 8], bitInByte)];
      outIndex := outIndex + 1;
    }
  }

  lemma WholeBits(bits: seq<bool>, start: nat, count: nat, input: seq<Byte>)
    requires count == 6 || (count < 6 && start + count == 8 * |input|)
    requires |bits| == 6 && forall i :: 0 <= i < 6 ==> bits[i] == (5 - i < count && BitAt(input, start + 5 - i))
    ensures bits == BitsAt(input, start)
  {
    hide BitOf;
  }

  function Letter(v: Sextet): char { TABLE[v] }

  /** The k-th encoded character before padding. */
  function CharAt(input: seq<Byte>, k: nat): char { Letter(ToNumber(BitsAt(input, 6 * k))) }

  /** The encoded characters from the k-th on, before padding. */
  function CharsFrom(input: seq<Byte>, k: nat): string
    decreases 8 * |input| - 6 * k
  {
    if 6 * k >= 8 * |input| then "" else [CharAt(input, k)] + CharsFrom(input, k + 1)
  }

  function Padded(s: string): string {
    match |s| % 4
    case 0 => s
    case 1 => s + [PAD, PAD, PAD]
    case 2 => s + [PAD, PAD]
    case 3 => s + [PAD]
  }

  function Group3(b0: Byte, b1: Byte, b2: Byte): string {
    [Letter(b0 / 4), Letter(b0 % 4 * 16 + b1 / 16), Letter(b1 % 16 * 4 + b2 / 64), Letter(b2 % 64)]
  }

  function Group2(b0: Byte, b1: Byte): string {
    [Letter(b0 / 4), Letter(b0 % 4 * 16 + b1 / 16), Letter(b1 % 16 * 4), PAD]
  }

  function Group1(b0: Byte): string { [Letter(b0 / 4), Letter(b0 % 4 * 16), PAD, PAD] }

  /** The encoding of section 5 of RFC 4648: three bytes to four characters, the last group padded. */
  function Rfc4648(input: seq<Byte>): string {
    match |input|
    case 0 => ""
    case 1 => Group1(input[0])
    case 2 => Group2(input[0], input[1])
    case _ => Group3(input[0], input[1], input[2]) + Rfc4648(input[3..])
  }

  lemma OneMoreChar(input: seq<Byte>, out: string)
    requires 6 * |out| < 8 * |input|
    ensures out + CharsFrom(input, |out|) == out + [CharAt(input, |out|)] + CharsFrom(input, |out| + 1)
  {
    hide CharAt;
    var c, rest := CharAt(input, |out|), CharsFrom(input, |out| + 1);
    assert out + ([c] + rest) == out + [c] + rest;
  }

  method Base64UrlEncode(input: seq<Byte>) returns (out: string)
    ensures out == Rfc4648(input)
  {
    hide BitAt, Letter, ToNumber;
    var bitCount := 8 * |input|;
    out := "";
    var bitIndex := 0;
    while bitIndex < bitCount
      invariant bitIndex == 6 * |out|
      invariant out + CharsFrom(input, |out|) == CharsFrom(input, 0)
      decreases bitCount - bitIndex
    {
      var count := if bitCount - bitIndex < 6 then bitCount - bitIndex else 6;
      var bits := GetBits(bitIndex, count, input);
      WholeBits(bits, bitIndex, count, input);
      OneMoreChar(input, out);
      out := out + [Letter(ToNumber(bits))];
      bitIndex := bitIndex + 6;
    }
    assert out + "" == out;
    if |out| % 4 != 0 {
      out := out + seq(4 - |out| % 4, _ => PAD);
    }
    EncodesAsRfc4648(input);
  }

  // ----- The bit-indexed form is the three-byte form

  function Weighted(bit: bool, weight: nat): nat { if bit then weight else 0 }

  lemma TwoBits(b: nat, n: nat)
    ensures Shifted(b, n + 2) == Shifted(b, n) / 4
    ensures Shifted(b, n) == Shifted(b, n + 2) * 4 + Weighted(BitOf(b, n + 1), 2) + Weighted(BitOf(b, n), 1)
  {
    assert Shifted(b, n + 1) == Shifted(b, n) / 2;
    assert Shifted(b, n + 2) == Shifted(b, n + 1) / 2;
  }

  lemma Quarters(b: Byte)
    ensures b / 16 == b / 4 / 4 && b / 64 == b / 16 / 4 && b / 64 / 4 == 0
  {
  }

  lemma ByteSplit(b: Byte)
    ensures b / 64 == Weighted(BitOf(b, 7), 2) + Weighted(BitOf(b, 6), 1)
    ensures b / 16 == b / 64 * 4 + Weighted(BitOf(b, 5), 2) + Weighted(BitOf(b, 4), 1)
    ensures b / 4 == b / 16 * 4 + Weighted(BitOf(b, 3), 2) + Weighted(BitOf(b, 2), 1)
    ensures b == b / 4 * 4 + Weighted(BitOf(b, 1), 2) + Weighted(BitOf(b, 0), 1)
  {
    assert Shifted(b, 0) == b;
    hide *;
    Quarters(b);
    TwoBits(b, 0);
    TwoBits(b, 2);
    TwoBits(b, 4);
    TwoBits(b, 6);
  }

  /** Byte i of the input, zero past the end. */
  function ByteAt(input: seq<Byte>, i: nat): Byte { if i < |input| then input[i] else 0 }

  lemma {:induction false} ZeroBits(n: nat)
    ensures Shifted(0, n) == 0
  {
    if n > 0 { ZeroBits(n - 1); }
  }

  lemma BitAtIs(input: seq<Byte>, i: nat, j: nat)
    requires j < 8
    ensures BitAt(input, 8 * i + j) == BitOf(ByteAt(input, i), 7 - j)
  {
    ZeroBits(7 - j);
  }

  lemma FirstNumber(input: seq<Byte>)
    ensures ToNumber(BitsAt(input, 0)) == ByteAt(input, 0) / 4
  {
    hide BitAt, BitOf, ByteAt;
    ByteSplit(ByteAt(input, 0));
    BitAtIs(input, 0, 0);
    BitAtIs(input, 0, 1);
    BitAtIs(input, 0, 2);
    BitAtIs(input, 0, 3);
    BitAtIs(input, 0, 4);
    BitAtIs(input, 0, 5);
  }

  lemma SecondNumber(input: seq<Byte>)
    ensures ToNumber(BitsAt(input, 6)) == ByteAt(input, 0) % 4 * 16 + ByteAt(input, 1) / 16
  {
    hide BitAt, BitOf, ByteAt;
    ByteSplit(ByteAt(input, 0));
    ByteSplit(ByteAt(input, 1));
    BitAtIs(input, 0, 6);
    BitAtIs(input, 0, 7);
    BitAtIs(input, 1, 0);
    BitAtIs(input, 1, 1);
    BitAtIs(input, 1, 2);
    BitAtIs(input, 1, 3);
  }

  lemma ThirdNumber(input: seq<Byte>)
    ensures ToNumber(BitsAt(input, 12)) == ByteAt(input, 1) % 16 * 4 + ByteAt(input, 2) / 64
  {
    hide BitAt, BitOf, ByteAt;
    ByteSplit(ByteAt(input, 1));
    ByteSplit(ByteAt(input, 2));
    BitAtIs(input, 1, 4);
    BitAtIs(input, 1, 5);
    BitAtIs(input, 1, 6);
    BitAtIs(input, 1, 7);
    BitAtIs(input, 2, 0);
    BitAtIs(input, 2, 1);
  }

  lemma FourthNumber(input: seq<Byte>)
    ensures ToNumber(BitsAt(input, 18)) == ByteAt(input, 2) % 64
  {
    hide BitAt, BitOf, ByteAt;
    ByteSplit(ByteAt(input, 2));
    BitAtIs(input, 2, 2);
    BitAtIs(input, 2, 3);
    BitAtIs(input, 2, 4);
    BitAtIs(input, 2, 5);
    BitAtIs(input, 2, 6);
    BitAtIs(input, 2, 7);
  }

  lemma BitShift(input: seq<Byte>, j: nat)
    requires |input| >= 3
    ensures BitAt(input, 24 + j) == BitAt(input[3..], j)
  {
    assert (24 + j) / 8 == j / 8 + 3 && (24 + j) % 8 == j % 8;
  }

  /** Dropping three bytes drops four characters. */
  lemma CharShift(input: seq<Byte>, k: nat)
    requires |input| >= 3
    ensures CharAt(input, k + 4) == CharAt(input[3..], k)
  {
    hide BitAt, Letter;
    BitShift(input, 6 * k);
    BitShift(input, 6 * k + 1);
    BitShift(input, 6 * k + 2);
    BitShift(input, 6 * k + 3);
    BitShift(input, 6 * k + 4);
    BitShift(input, 6 * k + 5);
  }

  lemma {:induction false} CharsShift(input: seq<Byte>, k: nat)
    requires |input| >= 3
    ensures CharsFrom(input, k + 4) == CharsFrom(input[3..], k)
    decreases 8 * |input| - 6 * k
  {
    hide CharAt;
    if 6 * k < 8 * |input[3..]| {
      CharShift(input, k);
      CharsShift(input, k + 1);
      assert CharsFrom(input, k + 4) == [CharAt(input, k + 4)] + CharsFrom(input, k + 1 + 4);
    }
  }

  lemma FirstChars(input: seq<Byte>)
    ensures CharAt(input, 0) == Letter(ByteAt(input, 0) / 4)
    ensures CharAt(input, 1) == Letter(ByteAt(input, 0) % 4 * 16 + ByteAt(input, 1) / 16)
    ensures CharAt(input, 2) == Letter(ByteAt(input, 1) % 16 * 4 + ByteAt(input, 2) / 64)
    ensures CharAt(input, 3) == Letter(ByteAt(input, 2) % 64)
  {
    hide Letter, BitsAt, ByteAt;
    FirstNumber(input);
    SecondNumber(input);
    ThirdNumber(input);
    FourthNumber(input);
  }

  lemma FourChars(input: seq<Byte>)
    requires |input| >= 3
    ensures CharsFrom(input, 0)
         == [CharAt(input, 0), CharAt(input, 1), CharAt(input, 2), CharAt(input, 3)] + CharsFrom(input, 4)
  {
    hide CharAt;
    assert CharsFrom(input, 3) == [CharAt(input, 3)] + CharsFrom(input, 4);
    assert CharsFrom(input, 2) == [CharAt(input, 2)] + CharsFrom(input, 3);
    assert CharsFrom(input, 1) == [CharAt(input, 1)] + CharsFrom(input, 2);
    assert CharsFrom(input, 0) == [CharAt(input, 0)] + CharsFrom(input, 1);
    Four(CharAt(input, 0), CharAt(input, 1), CharAt(input, 2), CharAt(input, 3), CharsFrom(input, 4));
  }

  lemma Four(a: char, b: char, c: char, d: char, rest: string)
    ensures [a] + ([b] + ([c] + ([d] + rest))) == [a, b, c, d] + rest
  {
  }

  lemma PaddedGroup(group: string, rest: string)
    requires |group| == 4
    ensures Padded(group + rest) == group + Padded(rest)
  {
    assert |group + rest| % 4 == |rest| % 4;
  }

  lemma OneByte(input: seq<Byte>)
    requires |input| == 1
    ensures Padded(CharsFrom(input, 0)) == Rfc4648(input)
  {
    FirstChars(input);
    hide CharAt, Letter;
    assert CharsFrom(input, 1) == [CharAt(input, 1)];
    assert CharsFrom(input, 0) == [CharAt(input, 0), CharAt(input, 1)];
    hide CharsFrom;
    assert |CharsFrom(input, 0)| % 4 == 2;
  }

  lemma TwoBytes(input: seq<Byte>)
    requires |input| == 2
    ensures Padded(CharsFrom(input, 0)) == Rfc4648(input)
  {
    FirstChars(input);
    hide CharAt, Letter;
    assert CharsFrom(input, 2) == [CharAt(input, 2)];
    assert CharsFrom(input, 1) == [CharAt(input, 1), CharAt(input, 2)];
    assert CharsFrom(input, 0) == [CharAt(input, 0), CharAt(input, 1), CharAt(input, 2)];
    hide CharsFrom;
    assert |CharsFrom(input, 0)| % 4 == 3;
  }

  lemma FirstGroup(input: seq<Byte>)
    requires |input| >= 3
    ensures Rfc4648(input)
         == [CharAt(input, 0), CharAt(input, 1), CharAt(input, 2), CharAt(input, 3)] + Rfc4648(input[3..])
  {
    FirstChars(input);
    hide CharAt, Letter;
  }

  lemma NextGroup(input: seq<Byte>)
    requires |input| >= 3 && Padded(CharsFrom(input[3..], 0)) == Rfc4648(input[3..])
    ensures Padded(CharsFrom(input, 0)) == Rfc4648(input)
  {
    hide *;
    FirstGroup(input);
    FourChars(input);
    CharsShift(input, 0);
    PaddedGroup([CharAt(input, 0), CharAt(input, 1), CharAt(input, 2), CharAt(input, 3)], CharsFrom(input[3..], 0));
  }

  /** The bit-indexed characters, padded, are the encoding of the RFC. */
  lemma {:induction false} EncodesAsRfc4648(input: seq<Byte>)
    ensures Padded(CharsFrom(input, 0)) == Rfc4648(input)
  {
    assert input == [] ==> Padded(CharsFrom(input, 0)) == Rfc4648(input);
    hide *;
    if |input| == 1 {
      OneByte(input);
    } else if |input| == 2 {
      TwoBytes(input);
    } else if |input| >= 3 {
      EncodesAsRfc4648(input[3..]);
      NextGroup(input);
    }
  }

  // ----- A decoder

  /** The number a letter of the alphabet stands for. */
  function LetterValue(c: char): (r: Option<Sextet>)
  {
    if 'A' <= c <= 'Z' then Some(c as int - 'A' as int)
    else if 'a' <= c <= 'z' then Some(c as int - 'a' as int + 26)
    else if '0' <= c <= '9' then Some(c as int - '0' as int + 52)
    else if c == '-' then Some(62)
    else if c == '_' then Some(63)
    else None
  }

  lemma UpperValue(v: nat)
    requires v < 26
    ensures LetterValue(UPPER[v]) == Some(v)
  {
  }

  lemma LowerValue(v: nat)
    requires v < 26
    ensures LetterValue(LOWER[v]) == Some(v + 26)
  {
  }

  /** Each letter of the table has the value of its position, so none is the padding character. */
  lemma LetterValueOf(v: Sextet)
    ensures LetterValue(Letter(v)) == Some(v)
  {
    if v < 26 {
      UpperValue(v);
    } else if v < 52 {
      LowerValue(v - 26);
    } else {
      assert TABLE[v] == OTHER[v - 52];
    }
  }

  /** The bytes of one group of three or four letters. */
  function Bytes3(a: Sextet, b: Sextet, c: Sextet): (Byte, Byte) { (a * 4 + b / 16, b % 16 * 16 + c / 4) }

  /** The bytes of one four-character group: one, two or three of them. */
  function DecodeQuad(q0: char, q1: char, q2: char, q3: char): Option<seq<Byte>> {
    if LetterValue(q0).None? || LetterValue(q1).None? then None
    else
      var a, b := LetterValue(q0).value, LetterValue(q1).value;
      if q2 == PAD then if q3 == PAD then Some([Bytes3(a, b, 0).0]) else None
      else if LetterValue(q2).None? then None
      else
        var c := LetterValue(q2).value;
        var (b0, b1) := Bytes3(a, b, c);
        if q3 == PAD then Some([b0, b1])
        else if LetterValue(q3).None? then None
        else Some([b0, b1, c % 4 * 64 + LetterValue(q3).value])
  }

  function Decode(s: string): Option<seq<Byte>> {
    if s == "" then Some([])
    else if |s| < 4 then None
    else
      var bytes := DecodeQuad(s[0], s[1], s[2], s[3]);
      if bytes.None? || (|bytes.value| < 3 && |s| > 4) then None
      else
        match Decode(s[4..])
        case None => None
        case Some(rest) => Some(bytes.value + rest)
  }

  lemma BytesOf(b0: Byte, b1: Byte, b2: Byte)
    ensures Bytes3(b0 / 4, b0 % 4 * 16 + b1 / 16, b1 % 16 * 4 + b2 / 64) == (b0, b1)
    ensures (b1 % 16 * 4 + b2 / 64) % 4 * 64 + b2 % 64 == b2
  {
    var r := b0 % 4;
    assert (r * 16 + b1 / 16) / 16 == r && (r * 16 + b1 / 16) % 16 == b1 / 16;
    var t := b1 % 16;
    assert (t * 4 + b2 / 64) / 4 == t && (t * 4 + b2 / 64) % 4 == b2 / 64;
  }

  lemma PadValue()
    ensures LetterValue(PAD) == None
  {
  }

  lemma DecodeGroup1(b0: Byte)
    ensures var g := Group1(b0); DecodeQuad(g[0], g[1], g[2], g[3]) == Some([b0])
  {
    hide Letter, LetterValue;
    LetterValueOf(b0 / 4);
    LetterValueOf(b0 % 4 * 16);
    PadValue();
  }

  lemma DecodeGroup2(b0: Byte, b1: Byte)
    ensures var g := Group2(b0, b1); DecodeQuad(g[0], g[1], g[2], g[3]) == Some([b0, b1])
  {
    hide Letter, LetterValue, Bytes3;
    BytesOf(b0, b1, 0);
    LetterValueOf(b0 / 4);
    LetterValueOf(b0 % 4 * 16 + b1 / 16);
    LetterValueOf(b1 % 16 * 4);
    PadValue();
  }

  lemma DecodeGroup3(b0: Byte, b1: Byte, b2: Byte)
    ensures var g := Group3(b0, b1, b2); DecodeQuad(g[0], g[1], g[2], g[3]) == Some([b0, b1, b2])
  {
    hide Letter, LetterValue, Bytes3;
    BytesOf(b0, b1, b2);
    LetterValueOf(b0 / 4);
    LetterValueOf(b0 % 4 * 16 + b1 / 16);
    LetterValueOf(b1 % 16 * 4 + b2 / 64);
    LetterValueOf(b2 % 64);
    PadValue();
  }

  lemma DecodeFirst(group: string, bytes: seq<Byte>, rest: string)
    requires |group| == 4 && DecodeQuad(group[0], group[1], group[2], group[3]) == Some(bytes)
    requires Decode(rest).Some? && (|bytes| == 3 || rest == "")
    ensures Decode(group + rest) == Some(bytes + Decode(rest).value)
  {
    hide DecodeQuad;
    assert (group + rest)[4..] == rest;
  }

  /** Decoding any encoding gives the input back. */
  lemma {:induction false} DecodeEncode(input: seq<Byte>)
    ensures Decode(Rfc4648(input)) == Some(input)
  {
    hide DecodeQuad, Letter;
    if |input| == 1 {
      var group := Group1(input[0]);
      DecodeGroup1(input[0]);
      assert input == [input[0]];
      DecodeFirst(group, input, "");
      assert group + "" == group && input + [] == input;
    } else if |input| == 2 {
      var group := Group2(input[0], input[1]);
      DecodeGroup2(input[0], input[1]);
      assert input == [input[0], input[1]];
      DecodeFirst(group, input, "");
      assert group + "" == group && input + [] == input;
    } else if |input| >= 3 {
      DecodeEncode(input[3..]);
      DecodeGroup3(input[0], input[1], input[2]);
      assert input[..3] == [input[0], input[1], input[2]];
      DecodeFirst(Group3(input[0], input[1], input[2]), input[..3], Rfc4648(input[3..]));
      assert input == input[..3] + input[3..];
    }
  }

  predicate Encodes(s: string) { forall i :: 0 <= i < |s| ==> s[i] in TABLE || s[i] == PAD }

  lemma LettersEncode(b0: Byte, b1: Byte, b2: Byte)
    ensures Encodes(Group1(b0)) && Encodes(Group2(b0, b1)) && Encodes(Group3(b0, b1, b2))
    ensures |Group1(b0)| == |Group2(b0, b1)| == |Group3(b0, b1, b2)| == 4
  {
  }

  lemma EncodesAppend(a: string, b: string)
    requires Encodes(a) && Encodes(b)
    ensures Encodes(a + b)
  {
  }

  /** Four characters for every three bytes begun. */
  lemma {:induction false} EncodingLength(input: seq<Byte>)
    ensures |Rfc4648(input)| == 4 * ((|input| + 2) / 3)
  {
    hide Letter;
    if |input| >= 3 { EncodingLength(input[3..]); }
  }

  /** Only letters of the alphabet and padding. */
  lemma {:induction false} EncodingAlphabet(input: seq<Byte>)
    ensures Encodes(Rfc4648(input))
  {
    assert Encodes("");
    LettersEncode(ByteAt(input, 0), ByteAt(input, 1), ByteAt(input, 2));
    hide Encodes, Group1, Group2, Group3;
    if |input| >= 3 {
      EncodingAlphabet(input[3..]);
      EncodesAppend(Group3(input[0], input[1], input[2]), Rfc4648(input[3..]));
    }
  }

  /** Different byte strings have different encodings. */
  lemma EncodingIsInjective(a: seq<Byte>, b: seq<Byte>)
    requires Rfc4648(a) == Rfc4648(b)
    ensures a == b
  {
    DecodeEncode(a);
    DecodeEncode(b);
  }
}
