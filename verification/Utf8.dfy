/**
 * Text as the program holds it, a sequence of UTF-16 code units, and its UTF-8 bytes. Encoding
 * replaces lone surrogates; decoding is strict and drops a leading byte order mark.
 */
module Utf8 {
  import opened Common

  type Byte = b: int | 0 <= b < 0x100
  type Bytes = seq<Byte>

  type Unit = u: int | 0 <= u < 0x1_0000
  type Text = seq<Unit>

  /** A Unicode scalar value: any code point that is not a surrogate. */
  type Scalar = c: int | 0 <= c < 0x11_0000 && !(0xD800 <= c < 0xE000)

  const REPLACEMENT: Scalar := 0xFFFD
  const BYTE_ORDER_MARK: Scalar := 0xFEFF

  predicate High(u: Unit) { 0xD800 <= u < 0xDC00 }

  predicate Low(u: Unit) { 0xDC00 <= u < 0xE000 }

  predicate StartsPair(t: Text) {
    |t| >= 2 && High(t[0]) && Low(t[1])
  }

  /** The scalar values of a text, with U+FFFD for every surrogate that is not part of a pair. */
  function Scalars(t: Text): seq<Scalar> {
    if t == [] then []
    else if StartsPair(t) then [0x1_0000 + (t[0] - 0xD800) * 0x400 + (t[1] - 0xDC00)] + Scalars(t[2..])
    else if High(t[0]) || Low(t[0]) then [REPLACEMENT] + Scalars(t[1..])
    else [t[0]] + Scalars(t[1..])
  }

  function Units(c: Scalar): Text {
    if c < 0x1_0000 then [c] else [0xD800 + (c - 0x1_0000) / 0x400, 0xDC00 + (c - 0x1_0000) % 0x400]
  }

  function ToText(cs: seq<Scalar>): Text {
    if cs == [] then [] else Units(cs[0]) + ToText(cs[1..])
  }

  /** Every surrogate of the text is part of a pair. */
  predicate WellFormed(t: Text) {
    if t == [] then true
    else if StartsPair(t) then WellFormed(t[2..])
    else !High(t[0]) && !Low(t[0]) && WellFormed(t[1..])
  }

  function EncodeScalar(c: Scalar): Bytes {
    if c < 0x80 then [c]
    else if c < 0x800 then [0xC0 + c / 64, 0x80 + c % 64]
    else if c < 0x1_0000 then [0xE0 + c / 4096, 0x80 + c / 64 % 64, 0x80 + c % 64]
    else [0xF0 + c / 262144, 0x80 + c / 4096 % 64, 0x80 + c / 64 % 64, 0x80 + c % 64]
  }

  function EncodeScalars(cs: seq<Scalar>): Bytes {
    if cs == [] then [] else EncodeScalar(cs[0]) + EncodeScalars(cs[1..])
  }

  /** `Buffer.from(text, "utf8")`. */
  function Encode(t: Text): Bytes {
    EncodeScalars(Scalars(t))
  }

  /** Bytes of the examples in section 7 of RFC 3629: two, one, three and four for a character. */
  lemma KnownBytes()
    ensures Encode([0x0391, 0x2E]) == [0xCE, 0x91, 0x2E]
    ensures Encode([0x2262]) == [0xE2, 0x89, 0xA2]
    ensures Encode([0xD84C, 0xDFB4]) == [0xF0, 0xA3, 0x8E, 0xB4]
  {
    hide Encode;
    KnownTwo();
    KnownThree();
    KnownFour();
  }

  lemma KnownThree()
    ensures Encode([0x2262]) == [0xE2, 0x89, 0xA2]
  {
    assert Scalars([0x2262]) == [0x2262];
    hide Scalars;
    assert EncodeScalar(0x2262) == [0xE2, 0x89, 0xA2];
  }

  lemma KnownFour()
    ensures Encode([0xD84C, 0xDFB4]) == [0xF0, 0xA3, 0x8E, 0xB4]
  {
    assert Scalars([0xD84C, 0xDFB4]) == [0x233B4];
    hide Scalars;
    assert EncodeScalar(0x233B4) == [0xF0, 0xA3, 0x8E, 0xB4];
  }

  lemma KnownTwo()
    ensures Encode([0x0391, 0x2E]) == [0xCE, 0x91, 0x2E]
  {
    var t: Text, cs: seq<Scalar> := [0x0391, 0x2E], [0x0391, 0x2E];
    assert Scalars(t) == cs by {
      assert t[1..] == [0x2E] && Scalars([0x2E]) == [0x2E];
    }
    hide Scalars;
    assert cs[1..] == [0x2E] && EncodeScalars([0x2E]) == [0x2E];
  }

  predicate Continues(b: Byte) { 0x80 <= b < 0xC0 }

  /** The number with these base-64 digits. */
  function Digits(x: int, y: int, z: int, w: int): int {
    ((x * 64 + y) * 64 + z) * 64 + w
  }

  /** The first scalar value of the bytes and its length; overlong forms and surrogates are refused. */
  function DecodeScalar(b: Bytes): (r: Option<(Scalar, nat)>)
    ensures r.Some? ==> 0 < r.value.1 <= |b|
  {
    if b == [] then None
    else if b[0] < 0x80 then Some((b[0], 1))
    else if |b| < 2 || !Continues(b[1]) then None
    else if 0xC2 <= b[0] < 0xE0 then Some((Digits(0, 0, b[0] - 0xC0, b[1] - 0x80), 2))
    else if |b| < 3 || !Continues(b[2]) then None
    else if 0xE0 <= b[0] < 0xF0 then
      if (b[0] == 0xE0 && b[1] < 0xA0) || (b[0] == 0xED && b[1] >= 0xA0) then None
      else Some((Digits(0, b[0] - 0xE0, b[1] - 0x80, b[2] - 0x80), 3))
    else if |b| < 4 || !Continues(b[3]) then None
    else if 0xF0 <= b[0] < 0xF5 then
      if (b[0] == 0xF0 && b[1] < 0x90) || (b[0] == 0xF4 && b[1] >= 0x90) then None
      else Some((Digits(b[0] - 0xF0, b[1] - 0x80, b[2] - 0x80, b[3] - 0x80), 4))
    else None
  }

  function DecodeScalars(b: Bytes): Option<seq<Scalar>>
    decreases |b|
  {
    if b == [] then Some([])
    else
      var first := DecodeScalar(b);
      if first.None? then None
      else
        var rest := DecodeScalars(b[first.value.1..]);
        if rest.None? then None else Some([first.value.0] + rest.value)
  }

  predicate Marked(cs: seq<Scalar>) {
    cs != [] && cs[0] == BYTE_ORDER_MARK
  }

  /** `new TextDecoder("utf-8", { fatal: true }).decode(bytes)`. */
  function Decode(b: Bytes): Option<Text> {
    var cs := DecodeScalars(b);
    if cs.None? then None
    else Some(ToText(if Marked(cs.value) then cs.value[1..] else cs.value))
  }

  // ---------------------------------------------------------------- bytes and scalar values

  lemma DigitsOf(c: nat)
    ensures c == Digits(c / 262144, c / 4096 % 64, c / 64 % 64, c % 64)
  {
    var p := c / 64;
    var q := p / 64;
    assert c == p * 64 + c % 64;
    assert p == q * 64 + p % 64;
    assert q == q / 64 * 64 + q % 64;
    assert c / 4096 == q by {
      assert q * 4096 <= c < q * 4096 + 4096;
    }
    assert c / 262144 == q / 64 by {
      assert q / 64 * 262144 <= c < q / 64 * 262144 + 262144;
    }
  }

  lemma DigitsUnique(x: nat, y: nat, z: nat, w: nat)
    requires y < 64 && z < 64 && w < 64
    ensures var c := Digits(x, y, z, w);
            c % 64 == w && c / 64 % 64 == z && c / 4096 % 64 == y && c / 262144 == x
  {
    var c := Digits(x, y, z, w);
    assert c / 64 == (x * 64 + y) * 64 + z;
    assert c / 4096 == x * 64 + y;
  }

  lemma DecodesShort(c: Scalar, b: Bytes)
    requires c < 0x800 && EncodeScalar(c) <= b
    ensures DecodeScalar(b) == Some((c, |EncodeScalar(c)|))
  {
    DigitsOf(c);
  }

  lemma DecodesThree(c: Scalar, b: Bytes)
    requires 0x800 <= c < 0x1_0000 && EncodeScalar(c) <= b
    ensures DecodeScalar(b) == Some((c, |EncodeScalar(c)|))
  {
    DigitsOf(c);
    assert b[0] == 0xE0 + c / 4096 && b[1] == 0x80 + c / 64 % 64 && b[2] == 0x80 + c % 64;
  }

  lemma DecodesFour(c: Scalar, b: Bytes)
    requires 0x1_0000 <= c && EncodeScalar(c) <= b
    ensures DecodeScalar(b) == Some((c, |EncodeScalar(c)|))
  {
    DigitsOf(c);
    assert b[0] == 0xF0 + c / 262144 && b[1] == 0x80 + c / 4096 % 64 && b[2] == 0x80 + c / 64 % 64 &&
        b[3] == 0x80 + c % 64;
  }

  lemma {:induction false} DecodesScalar(c: Scalar, rest: Bytes)
    ensures DecodeScalar(EncodeScalar(c) + rest) == Some((c, |EncodeScalar(c)|))
    ensures (EncodeScalar(c) + rest)[|EncodeScalar(c)|..] == rest
  {
    hide EncodeScalar, DecodeScalar;
    var b := EncodeScalar(c) + rest;
    if c < 0x800 {
      DecodesShort(c, b);
    } else if c < 0x1_0000 {
      DecodesThree(c, b);
    } else {
      DecodesFour(c, b);
    }
  }

  /** The decoder reads back what was encoded. */
  lemma {:induction false} DecodesScalars(cs: seq<Scalar>)
    ensures DecodeScalars(EncodeScalars(cs)) == Some(cs)
  {
    if cs == [] {
    } else {
      DecodesScalars(cs[1..]);
      DecodesScalar(cs[0], EncodeScalars(cs[1..]));
      hide EncodeScalar, DecodeScalar;
      assert EncodeScalars(cs) == EncodeScalar(cs[0]) + EncodeScalars(cs[1..]);
      assert [cs[0]] + cs[1..] == cs;
    }
  }

  /** Encodings of different scalar values differ. */
  lemma EncodingInjective(cs: seq<Scalar>, ds: seq<Scalar>)
    ensures EncodeScalars(cs) == EncodeScalars(ds) <==> cs == ds
  {
    DecodesScalars(cs);
    DecodesScalars(ds);
  }

  /** The decoder accepts nothing but the one encoding of a scalar value. */
  lemma {:induction false} OnlyEncoding(b: Bytes)
    requires DecodeScalar(b).Some?
    ensures b[..DecodeScalar(b).value.1] == EncodeScalar(DecodeScalar(b).value.0)
  {
    var n := DecodeScalar(b).value.1;
    if n == 2 {
      DigitsUnique(0, 0, b[0] - 0xC0, b[1] - 0x80);
    } else if n == 3 {
      DigitsUnique(0, b[0] - 0xE0, b[1] - 0x80, b[2] - 0x80);
    } else if n == 4 {
      DigitsUnique(b[0] - 0xF0, b[1] - 0x80, b[2] - 0x80, b[3] - 0x80);
    }
  }

  /** Whatever bytes are accepted are the encoding of what they decode to. */
  lemma {:induction false} Reencodes(b: Bytes)
    requires DecodeScalars(b).Some?
    ensures EncodeScalars(DecodeScalars(b).value) == b
    decreases |b|
  {
    hide EncodeScalar, DecodeScalar;
    if b == [] {
    } else {
      var first := DecodeScalar(b).value;
      OnlyEncoding(b);
      Reencodes(b[first.1..]);
      assert b == b[..first.1] + b[first.1..];
    }
  }

  // ---------------------------------------------------------------- scalar values and text

  /** Reading the text of scalar values gives the scalar values back. */
  lemma {:induction false} ScalarsOfText(cs: seq<Scalar>)
    ensures Scalars(ToText(cs)) == cs && WellFormed(ToText(cs))
  {
    if cs == [] {
    } else {
      var t, rest := ToText(cs), ToText(cs[1..]);
      ScalarsOfText(cs[1..]);
      if cs[0] < 0x1_0000 {
        assert t[0] == cs[0] && t[1..] == rest;
      } else {
        assert t[0] == Units(cs[0])[0] && t[1] == Units(cs[0])[1] && t[2..] == rest;
      }
    }
  }

  /** A text without lone surrogates is the text of its scalar values, and only such a text is. */
  lemma {:induction false} TextOfScalars(t: Text)
    ensures ToText(Scalars(t)) == t <==> WellFormed(t)
    ensures |ToText(Scalars(t))| == |t|
  {
    if t == [] {
    } else {
      var cs := Scalars(t);
      var back := ToText(cs);
      if StartsPair(t) {
        TextOfScalars(t[2..]);
        assert cs[1..] == Scalars(t[2..]);
        assert Units(cs[0]) == t[..2];
        assert back[2..] == ToText(Scalars(t[2..])) && t == t[..2] + t[2..];
      } else {
        TextOfScalars(t[1..]);
        assert cs[1..] == Scalars(t[1..]);
        assert back[1..] == ToText(Scalars(t[1..])) && t == [t[0]] + t[1..];
      }
    }
  }

  /** Decoding the encoding of a text. */
  lemma DecodesText(t: Text)
    ensures Decode(Encode(t)) == Some(ToText(if Marked(Scalars(t)) then Scalars(t)[1..] else Scalars(t)))
  {
    DecodesScalars(Scalars(t));
  }

  /** Texts with the same bytes are the same text, if neither has a lone surrogate. */
  lemma {:induction false} SameBytes(s: Text, t: Text)
    ensures Encode(s) == Encode(t) <==> Scalars(s) == Scalars(t)
    ensures WellFormed(s) && WellFormed(t) ==> (Encode(s) == Encode(t) <==> s == t)
  {
    EncodingInjective(Scalars(s), Scalars(t));
    TextOfScalars(s);
    TextOfScalars(t);
  }

  /** Replacing lone surrogates does not change the bytes. */
  lemma {:induction false} ReplacedSameBytes(t: Text)
    ensures Encode(ToText(Scalars(t))) == Encode(t)
  {
    ScalarsOfText(Scalars(t));
  }

  lemma MarkedText(t: Text)
    ensures Marked(Scalars(t)) <==> t != [] && t[0] == BYTE_ORDER_MARK
  {
  }

  /** Text comes back from encoding and strict decoding if and only if it has no lone surrogate and no leading mark. */
  lemma {:induction false} RoundTrip(t: Text)
    ensures Decode(Encode(t)) == Some(t) <==> WellFormed(t) && !(t != [] && t[0] == BYTE_ORDER_MARK)
  {
    DecodesText(t);
    TextOfScalars(t);
    MarkedText(t);
    if Marked(Scalars(t)) {
      assert ToText(Scalars(t)) == [BYTE_ORDER_MARK] + ToText(Scalars(t)[1..]);
    }
  }
}
