/** Which byte strings are text: the check that a decoder makes sequence by sequence, shown
    to accept exactly the encodings of Unicode scalar values (section 3 of RFC 3629). */
module Utf8 {
  import opened Common

  predicate Continues(b: byte) {
    0x80 <= b < 0xC0
  }

  /** The length of the well-formed sequence that the bytes start with, or 0. */
  function SequenceLength(b: seq<byte>): (n: nat)
    ensures n <= |b| && n <= 4
  {
    if b == [] then 0
    else if b[0] < 0x80 then 1
    else if |b| < 2 || !Continues(b[1]) then 0
    else if 0xC2 <= b[0] <= 0xDF then 2
    else if |b| < 3 || !Continues(b[2]) then 0
    else if 0xE0 <= b[0] <= 0xEF then
      if (b[0] == 0xE0 && b[1] < 0xA0) || (b[0] == 0xED && b[1] >= 0xA0) then 0 else 3
    else if |b| < 4 || !Continues(b[3]) then 0
    else if 0xF0 <= b[0] <= 0xF4 then
      if (b[0] == 0xF0 && b[1] < 0x90) || (b[0] == 0xF4 && b[1] >= 0x90) then 0 else 4
    else 0
  }

  predicate IsUtf8(b: seq<byte>)
    decreases |b|
  {
    b == [] || (SequenceLength(b) > 0 && IsUtf8(b[SequenceLength(b)..]))
  }

  // ----- the encodings -----

  predicate IsScalar(c: int) {
    0 <= c < 0x110000 && !(0xD800 <= c < 0xE000)
  }

  type Scalar = c: int | IsScalar(c)

  function Encode(c: Scalar): (b: seq<byte>)
    ensures 1 <= |b| <= 4
  {
    assert IsScalar(c);
    if c < 0x80 then [c]
    else if c < 0x800 then [0xC0 + c / 0x40, 0x80 + c % 0x40]
    else if c < 0x10000 then [0xE0 + c / 0x1000, 0x80 + c / 0x40 % 0x40, 0x80 + c % 0x40]
    else [0xF0 + c / 0x40000, 0x80 + c / 0x1000 % 0x40, 0x80 + c / 0x40 % 0x40, 0x80 + c % 0x40]
  }

  function EncodeAll(text: seq<Scalar>): seq<byte> {
    if text == [] then [] else Encode(text[0]) + EncodeAll(text[1..])
  }

  /** The first bytes decide, whatever follows. */
  lemma EncodedIsASequence(c: Scalar, rest: seq<byte>)
    ensures SequenceLength(Encode(c) + rest) == |Encode(c)|
  {
    assert IsScalar(c);
    var e, b := Encode(c), Encode(c) + rest;
    assert forall k :: 0 <= k < |e| ==> b[k] == e[k];
  }

  /** What a byte adds to the marker that starts it. */
  function Digit(b: byte, marker: nat): nat {
    if b >= marker then b - marker else 0
  }

  /** The value of groups of six bits. */
  function Groups(x: nat, y: nat, z: nat, w: nat): nat {
    x * 0x40000 + y * 0x1000 + z * 0x40 + w
  }

  function Value(b: seq<byte>): nat
    requires SequenceLength(b) > 0
  {
    match SequenceLength(b)
    case 1 => b[0]
    case 2 => Groups(0, 0, Digit(b[0], 0xC0), Digit(b[1], 0x80))
    case 3 => Groups(0, Digit(b[0], 0xE0), Digit(b[1], 0x80), Digit(b[2], 0x80))
    case _ => Groups(Digit(b[0], 0xF0), Digit(b[1], 0x80), Digit(b[2], 0x80), Digit(b[3], 0x80))
  }

  lemma LastGroup(h: nat, w: nat)
    requires w < 0x40
    ensures (h * 0x40 + w) / 0x40 == h && (h * 0x40 + w) % 0x40 == w
  {
  }

  lemma DividedTwice(c: nat)
    ensures c / 0x1000 == c / 0x40 / 0x40
  {
  }

  lemma GroupsSplit(x: nat, y: nat, z: nat, w: nat)
    requires y < 0x40 && z < 0x40 && w < 0x40
    ensures var c := Groups(x, y, z, w);
      && c % 0x40 == w && c / 0x40 % 0x40 == z && c / 0x1000 % 0x40 == y && c / 0x40000 == x
      && c / 0x40 == (x * 0x40 + y) * 0x40 + z && c / 0x1000 == x * 0x40 + y
  {
    var c := Groups(x, y, z, w);
    assert c == ((x * 0x40 + y) * 0x40 + z) * 0x40 + w;
    LastGroup((x * 0x40 + y) * 0x40 + z, w);
    LastGroup(x * 0x40 + y, z);
    LastGroup(x, y);
    DividedTwice(c);
  }

  lemma PairIsEncoded(b: seq<byte>)
    requires SequenceLength(b) == 2
    ensures IsScalar(Value(b)) && Encode(Value(b)) == b[..2]
  {
    GroupsSplit(0, 0, Digit(b[0], 0xC0), Digit(b[1], 0x80));
  }

  lemma TripleIsEncoded(b: seq<byte>)
    requires SequenceLength(b) == 3
    ensures IsScalar(Value(b)) && Encode(Value(b)) == b[..3]
  {
    GroupsSplit(0, Digit(b[0], 0xE0), Digit(b[1], 0x80), Digit(b[2], 0x80));
  }

  lemma QuadIsEncoded(b: seq<byte>)
    requires SequenceLength(b) == 4
    ensures IsScalar(Value(b)) && Encode(Value(b)) == b[..4]
  {
    GroupsSplit(Digit(b[0], 0xF0), Digit(b[1], 0x80), Digit(b[2], 0x80), Digit(b[3], 0x80));
  }

  lemma SequenceIsEncoded(b: seq<byte>)
    requires SequenceLength(b) > 0
    ensures IsScalar(Value(b)) && Encode(Value(b)) == b[..SequenceLength(b)]
  {
    match SequenceLength(b)
    case 1 =>
    case 2 => PairIsEncoded(b);
    case 3 => TripleIsEncoded(b);
    case _ => QuadIsEncoded(b);
  }

  lemma {:induction false} TextIsUtf8(text: seq<Scalar>)
    ensures IsUtf8(EncodeAll(text))
  {
    if text != [] {
      EncodedIsASequence(text[0], EncodeAll(text[1..]));
      TextIsUtf8(text[1..]);
      assert EncodeAll(text)[|Encode(text[0])|..] == EncodeAll(text[1..]);
    }
  }

  lemma {:induction false} Utf8IsText(b: seq<byte>) returns (text: seq<Scalar>)
    requires IsUtf8(b)
    ensures EncodeAll(text) == b
    decreases |b|
  {
    if b == [] {
      text := [];
    } else {
      var n := SequenceLength(b);
      SequenceIsEncoded(b);
      var rest := Utf8IsText(b[n..]);
      text := [Value(b)] + rest;
      assert text[1..] == rest;
      assert b == b[..n] + b[n..];
    }
  }

  /** The check accepts exactly the encodings of text. */
  lemma Utf8Exactly(b: seq<byte>)
    ensures IsUtf8(b) <==> exists text: seq<Scalar> :: EncodeAll(text) == b
  {
    if IsUtf8(b) {
      var text := Utf8IsText(b);
    }
    forall text: seq<Scalar> | EncodeAll(text) == b ensures IsUtf8(b) {
      TextIsUtf8(text);
    }
  }
}
