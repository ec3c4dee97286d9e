/**
 * The table that turns a position in a JavaScript string into a byte offset in the UTF-8 file it
 * was read from (`byteOffsets` in scripts/complexity.ts).
 *
 * A string is its UTF-16 code units, surrogate pairs and lone surrogates among them. Each unit's
 * entry is the length of the UTF-8 written for what comes before it.
 */
module ByteOffsets {

  /** A UTF-16 code unit. */
  type Unit = u: nat | u < 0x10000

  type CodePoint = c: nat | c < 0x110000

  type Byte = b: nat | b < 0x100

  // --------------------------------------------- UTF-16, section 2.2 of RFC 2781

  predicate High(u: Unit) { 0xD800 <= u < 0xDC00 }

  predicate Low(u: Unit) { 0xDC00 <= u < 0xE000 }

  predicate PairAt(text: seq<Unit>, i: nat) {
    i + 1 < |text| && High(text[i]) && Low(text[i + 1])
  }

  function Combined(high: Unit, low: Unit): CodePoint
    requires High(high) && Low(low)
  {
    0x10000 + (high - 0xD800) * 0x400 + (low - 0xDC00)
  }

  /** `codePointAt`: the whole code point of a pair, or the unit itself, a lone surrogate included. */
  function CodePointAt(text: seq<Unit>, i: nat): CodePoint
    requires i < |text|
  {
    if PairAt(text, i) then Combined(text[i], text[i + 1]) else text[i]
  }

  function Decode(text: seq<Unit>): seq<CodePoint> {
    if text == [] then []
    else [CodePointAt(text, 0)] + Decode(text[FirstWidth(text)..])
  }

  /** The two units that section 2.1 of RFC 2781 writes for a code point above the first plane. */
  function Surrogates(c: CodePoint): (Unit, Unit)
    requires c >= 0x10000
  {
    (0xD800 + (c - 0x10000) / 0x400, 0xDC00 + (c - 0x10000) % 0x400)
  }

  lemma PairReadsBack(c: CodePoint, high: Unit, low: Unit)
    requires c >= 0x10000
    ensures High(high) && Low(low) && Combined(high, low) == c <==> Surrogates(c) == (high, low)
  {
    if High(high) && Low(low) && Combined(high, low) == c {
      assert c - 0x10000 == (high - 0xD800) * 0x400 + (low - 0xDC00);
    }
  }

  /** Not in the middle of a pair. */
  predicate Boundary(text: seq<Unit>, i: nat) {
    i <= |text| && !(i > 0 && PairAt(text, i - 1))
  }

  // --------------------------------------------- UTF-8, section 3 of RFC 3629

  /** The replacement character, which a UTF-8 file holds in a lone surrogate's place. */
  const REPLACEMENT: CodePoint := 0xFFFD

  function Scalar(c: CodePoint): CodePoint {
    if 0xD800 <= c < 0xE000 then REPLACEMENT else c
  }

  function Trail(c: nat): Byte { 0x80 + c % 0x40 }

  function Encode(c: CodePoint): seq<Byte> {
    if c < 0x80 then [c]
    else if c < 0x800 then [0xC0 + c / 0x40, Trail(c)]
    else if c < 0x10000 then [0xE0 + c / 0x1000, Trail(c / 0x40), Trail(c)]
    else [0xF0 + c / 0x40000, Trail(c / 0x1000), Trail(c / 0x40), Trail(c)]
  }

  /** How many bytes the first byte of a sequence announces. */
  function Announced(first: Byte): nat {
    if first < 0x80 then 1 else if first < 0xE0 then 2 else if first < 0xF0 then 3 else 4
  }

  /** A byte without its marking bits. */
  function Bits(b: Byte, mark: nat): nat
    requires mark <= b
  {
    b - mark
  }

  function Payload(bytes: seq<Byte>): nat
    requires bytes != [] && |bytes| == Announced(bytes[0])
    requires |bytes| > 1 ==> bytes[0] >= 0xC0
    requires forall i :: 1 <= i < |bytes| ==> 0x80 <= bytes[i] < 0xC0
  {
    if |bytes| == 1 then bytes[0]
    else if |bytes| == 2 then Bits(bytes[0], 0xC0) * 0x40 + Bits(bytes[1], 0x80)
    else if |bytes| == 3 then (Bits(bytes[0], 0xE0) * 0x40 + Bits(bytes[1], 0x80)) * 0x40 + Bits(bytes[2], 0x80)
    else ((Bits(bytes[0], 0xF0) * 0x40 + Bits(bytes[1], 0x80)) * 0x40 + Bits(bytes[2], 0x80)) * 0x40 + Bits(bytes[3], 0x80)
  }

  /** The bytes of a code point announce their own number and read back as it. */
  lemma EncodedReadsBack(c: CodePoint)
    ensures var bytes := Encode(c);
      && bytes != [] && |bytes| == Announced(bytes[0])
      && (|bytes| > 1 ==> bytes[0] >= 0xC0)
      && (forall i :: 1 <= i < |bytes| ==> 0x80 <= bytes[i] < 0xC0)
      && Payload(bytes) == c
  {
    var a, b, d := c / 0x40, c / 0x1000, c / 0x40000;
    assert c == a * 0x40 + c % 0x40;
    assert a == b * 0x40 + a % 0x40;
    assert b == d * 0x40 + b % 0x40;
  }

  function Utf8(codes: seq<CodePoint>): seq<Byte> {
    if codes == [] then [] else Encode(Scalar(codes[0])) + Utf8(codes[1..])
  }

  function ByteLength(text: seq<Unit>): nat { |Utf8(Decode(text))| }

  /** Where position `i` lies in the file: its bytes before `i`, the middle of a pair counting as
      its end. */
  function OffsetOf(text: seq<Unit>, i: nat): nat
    requires i <= |text|
  {
    ByteLength(text[..if Boundary(text, i) then i else i + 1])
  }

  lemma {:induction false} Utf8Joins(a: seq<CodePoint>, b: seq<CodePoint>)
    ensures Utf8(a + b) == Utf8(a) + Utf8(b)
  {
    if a == [] {
      assert a + b == b;
    } else {
      assert (a + b)[1..] == a[1..] + b;
      Utf8Joins(a[1..], b);
    }
  }

  /** How many units the first code point takes. */
  function FirstWidth(text: seq<Unit>): nat
    requires text != []
  {
    if PairAt(text, 0) then 2 else 1
  }

  lemma FirstOfTwo(a: seq<Unit>, b: seq<Unit>)
    requires a != [] && (b != [] ==> !(High(a[|a| - 1]) && Low(b[0])))
    ensures FirstWidth(a + b) == FirstWidth(a) <= |a| && CodePointAt(a + b, 0) == CodePointAt(a, 0)
    ensures (a + b)[FirstWidth(a)..] == a[FirstWidth(a)..] + b
  {
    assert (a + b)[0] == a[0];
    if |a| > 1 { assert (a + b)[1] == a[1]; }
  }

  /** Decoding splits wherever no pair is cut. */
  lemma {:induction false} DecodeJoins(a: seq<Unit>, b: seq<Unit>)
    requires a != [] && b != [] ==> !(High(a[|a| - 1]) && Low(b[0]))
    ensures Decode(a + b) == Decode(a) + Decode(b)
    decreases |a|
  {
    if a == [] {
      assert a + b == b;
    } else {
      FirstOfTwo(a, b);
      DecodeJoins(a[FirstWidth(a)..], b);
    }
  }

  lemma DecodeSplits(text: seq<Unit>, i: nat)
    requires Boundary(text, i)
    ensures Decode(text) == Decode(text[..i]) + Decode(text[i..])
  {
    assert text == text[..i] + text[i..];
    DecodeJoins(text[..i], text[i..]);
  }

  lemma LengthSplits(text: seq<Unit>, i: nat)
    requires Boundary(text, i)
    ensures ByteLength(text) == ByteLength(text[..i]) + ByteLength(text[i..])
  {
    DecodeSplits(text, i);
    Utf8Joins(Decode(text[..i]), Decode(text[i..]));
  }

  function Width(c: CodePoint): nat {
    if c < 0x80 then 1 else if c < 0x800 then 2 else if c < 0x10000 then 3 else 4
  }

  /** One code point on: its end is the next boundary, and its bytes are `Width` of it. */
  lemma NextCodePoint(text: seq<Unit>, i: nat)
    requires Boundary(text, i) && i < |text|
    ensures var next := i + if PairAt(text, i) then 2 else 1;
      && Boundary(text, next)
      && PairAt(text, i) == (CodePointAt(text, i) >= 0x10000)
      && ByteLength(text[..next]) == ByteLength(text[..i]) + Width(CodePointAt(text, i))
  {
    var next := i + if PairAt(text, i) then 2 else 1;
    var upTo := text[..next];
    assert !(i > 0 && PairAt(upTo, i - 1));
    LengthSplits(upTo, i);
    assert upTo[..i] == text[..i];
    var last := upTo[i..];
    assert PairAt(last, 0) == PairAt(text, i);
    assert last[next - i..] == [];
    assert Decode(last) == [CodePointAt(text, i)] + Decode(last[next - i..]) == [CodePointAt(text, i)];
    assert Utf8([CodePointAt(text, i)]) == Encode(Scalar(CodePointAt(text, i))) + Utf8([]);
  }

  lemma OffsetsOfNext(text: seq<Unit>, i: nat)
    requires Boundary(text, i) && i < |text|
    ensures OffsetOf(text, i) == ByteLength(text[..i])
    ensures PairAt(text, i) ==> OffsetOf(text, i + 1) == ByteLength(text[..i + 2])
  {
  }

  // ------------------------------------------------------------------ the table

  method Offsets(text: seq<Unit>) returns (offsets: array<int>)
    ensures offsets.Length == |text| + 1
    ensures forall i :: 0 <= i <= |text| ==> offsets[i] == OffsetOf(text, i)
  {
    offsets := new int[|text| + 1];
    var bytes, index := 0, 0;
    assert text[..0] == [];
    while index < |text|
      invariant Boundary(text, index) && bytes == ByteLength(text[..index])
      invariant forall i :: 0 <= i < index ==> offsets[i] == OffsetOf(text, i)
    {
      NextCodePoint(text, index);
      OffsetsOfNext(text, index);
      offsets[index] := bytes;
      var code := CodePointAt(text, index);
      if code < 0x80 {
        bytes := bytes + 1;
      } else if code < 0x800 {
        bytes := bytes + 2;
      } else if code < 0x10000 {
        bytes := bytes + 3;
      } else {
        bytes := bytes + 4;
        offsets[index + 1] := bytes;
        index := index + 1;
      }
      index := index + 1;
    }
    offsets[|text|] := bytes;
  }

  // ------------------------------------------------------------- what it gives

  /** A later position never lies before an earlier one, and the last is the file's size. */
  lemma OffsetsGrow(text: seq<Unit>, i: nat, j: nat)
    requires i <= j <= |text|
    ensures 0 <= OffsetOf(text, i) <= OffsetOf(text, j) <= OffsetOf(text, |text|) == ByteLength(text)
  {
    assert text[..|text|] == text;
    var a, b := if Boundary(text, i) then i else i + 1, if Boundary(text, j) then j else j + 1;
    assert a <= b <= |text| && Boundary(text, a) && Boundary(text, b);
    LengthSplits(text, b);
    assert Boundary(text[..b], a);
    LengthSplits(text[..b], a);
    assert text[..b][..a] == text[..a];
  }

  /** Two code points never share an offset, so a byte offset names at most one function's start. */
  lemma OffsetsTellBoundariesApart(text: seq<Unit>, i: nat, j: nat)
    requires i < j <= |text| && Boundary(text, i) && Boundary(text, j)
    ensures OffsetOf(text, i) < OffsetOf(text, j)
  {
    NextCodePoint(text, i);
    var next := i + if PairAt(text, i) then 2 else 1;
    assert next <= j;
    OffsetsGrow(text, next, j);
  }

  /** No offset passes three bytes a unit, so a text below a third of 2^31 units fits the table's
      32-bit entries. */
  lemma {:induction false} OffsetsFit(text: seq<Unit>, i: nat)
    requires Boundary(text, i)
    ensures i <= OffsetOf(text, i) <= 3 * i
    decreases i
  {
    if i == 0 {
      assert text[..0] == [];
    } else if Boundary(text, i - 1) {
      OffsetsFit(text, i - 1);
      NextCodePoint(text, i - 1);
    } else {
      assert Boundary(text, i - 2);
      OffsetsFit(text, i - 2);
      NextCodePoint(text, i - 2);
    }
  }
}
