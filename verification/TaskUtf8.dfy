/** The lines that the client's event-stream reader accepts are exactly the UTF-8 encodings, by section 3 of
    RFC 3629, of sequences of Unicode scalar values. */
module TaskUtf8 {
  import opened Optional
  import opened TaskFraming

  /** A code point that is no surrogate. */
  type Scalar = c: int | 0 <= c < 0x110000 && !(0xD800 <= c < 0xE000)

  const BYTE_ORDER_MARK: Scalar := 0xFEFF

  function EncodeScalar(c: Scalar): (s: seq<Byte>)
    ensures 1 <= |s| <= 4
  {
    if c < 0x80 then [c]
    else if c < 0x800 then [0xC0 + c / 64, 0x80 + c % 64]
    else if c < 0x10000 then [0xE0 + c / 4096, 0x80 + c / 64 % 64, 0x80 + c % 64]
    else [0xF0 + c / 262144, 0x80 + c / 4096 % 64, 0x80 + c / 64 % 64, 0x80 + c % 64]
  }

  function EncodeText(text: seq<Scalar>): seq<Byte> {
    if text == [] then [] else EncodeScalar(text[0]) + EncodeText(text[1..])
  }

  // ---- One character --------------------------------------------------------------------------------

  lemma By64(a: nat, d: nat)
    requires d < 64
    ensures (a * 64 + d) / 64 == a && (a * 64 + d) % 64 == d
  {}

  lemma By4096(a: nat, d: nat)
    requires d < 4096
    ensures (a * 4096 + d) / 4096 == a
  {}

  lemma By262144(a: nat, d: nat)
    requires d < 262144
    ensures (a * 262144 + d) / 262144 == a
  {}

  lemma TwoBytes(x: nat, y: nat)
    requires y < 64
    ensures var c := x * 64 + y; c / 64 == x && c % 64 == y
  {
    By64(x, y);
  }

  lemma ThreeBytes(x: nat, y: nat, z: nat)
    requires y < 64 && z < 64
    ensures var c := x * 4096 + y * 64 + z; c / 4096 == x && c / 64 % 64 == y && c % 64 == z
  {
    By4096(x, y * 64 + z);
    By64(x * 64 + y, z);
    By64(x, y);
  }

  lemma FourBytes(w: nat, x: nat, y: nat, z: nat)
    requires x < 64 && y < 64 && z < 64
    ensures var c := w * 262144 + x * 4096 + y * 64 + z;
            c / 262144 == w && c / 4096 % 64 == x && c / 64 % 64 == y && c % 64 == z
  {
    By262144(w, x * 4096 + y * 64 + z);
    By4096(w * 64 + x, y * 64 + z);
    By64(w, x);
    By64(w * 4096 + x * 64 + y, z);
    By64(w * 64 + x, y);
  }

  /** Every well-formed character at the front of some bytes is the encoding of one scalar value. */
  lemma CharacterIsEncoded(s: seq<Byte>) returns (c: Scalar)
    requires CharLength(s) > 0
    ensures EncodeScalar(c) == s[..CharLength(s)]
  {
    match CharLength(s)
    case 1 => c := s[0];
    case 2 => c := TwoByteCharacter(s);
    case 3 => c := ThreeByteCharacter(s);
    case _ => c := FourByteCharacter(s);
  }

  lemma TwoByteCharacter(s: seq<Byte>) returns (c: Scalar)
    requires CharLength(s) == 2
    ensures EncodeScalar(c) == s[..2]
  {
    var x, y := s[0] as int - 0xC0, s[1] as int - 0x80;
    TwoBytes(x, y);
    c := x * 64 + y;
  }

  lemma ThreeByteCharacter(s: seq<Byte>) returns (c: Scalar)
    requires CharLength(s) == 3
    ensures EncodeScalar(c) == s[..3]
  {
    var x, y, z := s[0] as int - 0xE0, s[1] as int - 0x80, s[2] as int - 0x80;
    ThreeBytes(x, y, z);
    c := x * 4096 + y * 64 + z;
  }

  lemma FourByteCharacter(s: seq<Byte>) returns (c: Scalar)
    requires CharLength(s) == 4
    ensures EncodeScalar(c) == s[..4]
  {
    var w, x, y, z := s[0] as int - 0xF0, s[1] as int - 0x80, s[2] as int - 0x80, s[3] as int - 0x80;
    FourBytes(w, x, y, z);
    c := w * 262144 + x * 4096 + y * 64 + z;
  }

  /** The encoding of a scalar value is a well-formed character, whatever follows. */
  lemma EncodedIsCharacter(c: Scalar, rest: seq<Byte>)
    ensures CharLength(EncodeScalar(c) + rest) == |EncodeScalar(c)|
  {
  }

  // ---- Texts ----------------------------------------------------------------------------------------

  lemma {:induction false} EncodedIsUtf8(text: seq<Scalar>)
    ensures Utf8(EncodeText(text))
  {
    if text != [] {
      var first, rest := EncodeScalar(text[0]), EncodeText(text[1..]);
      EncodedIsCharacter(text[0], rest);
      EncodedIsUtf8(text[1..]);
      assert (first + rest)[|first|..] == rest;
      hide CharLength, EncodeScalar;
    }
  }

  lemma {:induction false} Utf8IsEncoded(s: seq<Byte>) returns (text: seq<Scalar>)
    requires Utf8(s)
    ensures EncodeText(text) == s
    decreases |s|
  {
    hide CharLength, EncodeScalar;
    if s == [] {
      text := [];
    } else {
      var n := CharLength(s);
      var first := CharacterIsEncoded(s);
      var rest := Utf8IsEncoded(s[n..]);
      text := [first] + rest;
      assert text[1..] == rest && s == s[..n] + s[n..];
    }
  }

  /** A line is decoded exactly when it encodes some text; the text decoded is that one, without a byte order mark
      at its front. */
  lemma DecodesText(line: seq<Byte>, text: seq<Scalar>)
    requires line == EncodeText(text)
    ensures Decode(line) ==
      Some(EncodeText(if text != [] && text[0] == BYTE_ORDER_MARK then text[1..] else text))
  {
    EncodedIsUtf8(text);
    if text != [] {
      MarkIff(text[0], EncodeText(text[1..]));
      hide Utf8, EncodeScalar;
    }
  }

  lemma MarkIff(c: Scalar, rest: seq<Byte>)
    ensures var s := EncodeScalar(c) + rest;
            && (s[..if |s| < 3 then |s| else 3] == [0xEF, 0xBB, 0xBF] <==> c == BYTE_ORDER_MARK)
            && (c == BYTE_ORDER_MARK ==> |s| >= 3 && s[3..] == rest)
  {
    var first := EncodeScalar(c);
    var s := first + rest;
    assert forall i :: 0 <= i < |first| ==> s[i] == first[i];
    assert s[..if |s| < 3 then |s| else 3] == [0xEF, 0xBB, 0xBF] <==>
      |s| >= 3 && s[0] == 0xEF && s[1] == 0xBB && s[2] == 0xBF;
    MarkBytes(c);
    assert c == BYTE_ORDER_MARK ==> s[3..] == rest;
  }

  /** Only the byte order mark is encoded by these three bytes, and only three-byte characters begin like it. */
  lemma MarkBytes(c: Scalar)
    ensures EncodeScalar(c)[0] == 0xEF ==> |EncodeScalar(c)| == 3
    ensures EncodeScalar(c) == [0xEF, 0xBB, 0xBF] <==> c == BYTE_ORDER_MARK
  {
    assert c == c / 4096 * 4096 + c / 64 % 64 * 64 + c % 64;
  }

  /** Exactly the lines that encode no text are malformed. */
  lemma MalformedIff(line: seq<Byte>)
    ensures Decode(line).None? <==> forall text :: EncodeText(text) != line
  {
    if Utf8(line) {
      var text := Utf8IsEncoded(line);
    }
    forall text | EncodeText(text) == line ensures Utf8(line) { EncodedIsUtf8(text); }
    hide Utf8;
  }
}
