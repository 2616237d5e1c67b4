/** UTF-8 as RFC 3629 defines it, against the codec.

    The codec also carries unpaired surrogates, which RFC 3629 forbids, so two
    byte grammars matter: the standard's own (section 4), and the bytes the
    encoder can produce at all.
  */
module Rfc3629 {
  import opened Sequences
  import opened Utf8

  predicate Tail(b: Byte) { 0x80 <= b <= 0xbf }

  /** The length of the character that opens `bytes` under the grammar of
      RFC 3629 section 4, and zero when none does. */
  function CharLength(bytes: seq<Byte>): (n: nat)
    ensures n <= |bytes|
  {
    if |bytes| >= 1 && bytes[0] <= 0x7f then 1
    else if |bytes| >= 2 && 0xc2 <= bytes[0] <= 0xdf && Tail(bytes[1]) then 2
    else if |bytes| >= 3 && Tail(bytes[2]) &&
      ((bytes[0] == 0xe0 && 0xa0 <= bytes[1] <= 0xbf) ||
       (0xe1 <= bytes[0] <= 0xec && Tail(bytes[1])) ||
       (bytes[0] == 0xed && 0x80 <= bytes[1] <= 0x9f) ||
       (0xee <= bytes[0] <= 0xef && Tail(bytes[1]))) then 3
    else if |bytes| >= 4 && Tail(bytes[2]) && Tail(bytes[3]) &&
      ((bytes[0] == 0xf0 && 0x90 <= bytes[1] <= 0xbf) ||
       (0xf1 <= bytes[0] <= 0xf3 && Tail(bytes[1])) ||
       (bytes[0] == 0xf4 && 0x80 <= bytes[1] <= 0x8f)) then 4
    else 0
  }

  /** Bytes that are characters of RFC 3629 and nothing else. */
  predicate WellFormed8(bytes: seq<Byte>)
  {
    bytes == [] || (CharLength(bytes) > 0 && WellFormed8(bytes[CharLength(bytes)..]))
  }

  /** A surrogate written in three bytes, which RFC 3629 section 3 prohibits. */
  predicate HighAt(bytes: seq<Byte>)
  {
    |bytes| >= 3 && bytes[0] == 0xed && 0xa0 <= bytes[1] <= 0xaf && Tail(bytes[2])
  }

  predicate LowAt(bytes: seq<Byte>)
  {
    |bytes| >= 3 && bytes[0] == 0xed && 0xb0 <= bytes[1] <= 0xbf && Tail(bytes[2])
  }

  function UnitLength(bytes: seq<Byte>): (n: nat)
    ensures n <= |bytes|
  {
    if HighAt(bytes) || LowAt(bytes) then 3 else CharLength(bytes)
  }

  /** Bytes the encoder can produce: characters and lone surrogates, with no
      high surrogate straight before a low one, since the encoder would have
      joined those two into one character. */
  predicate Encodable(bytes: seq<Byte>)
  {
    bytes == [] ||
    (var n := UnitLength(bytes);
     n > 0 && Encodable(bytes[n..]) && !(HighAt(bytes) && LowAt(bytes[n..])))
  }

  // ---- one character ----

  predicate Surrogate(code: Code) { 0xd800 <= code <= 0xdfff }

  ghost predicate Recognised(bytes: seq<Byte>, n: nat, code: Code)
  {
    && UnitLength(bytes) == n
    && CharLength(bytes) == (if Surrogate(code) then 0 else n)
    && (HighAt(bytes) <==> 0xd800 <= code <= 0xdbff)
    && (LowAt(bytes) <==> 0xdc00 <= code <= 0xdfff)
  }

  lemma ThreeRecognised(bytes: seq<Byte>, x: nat, y: nat, z: nat)
    requires y < 0x40 && z < 0x40 && 0x800 <= x * 0x1000 + y * 0x40 + z < 0x10000
    requires |bytes| >= 3 && bytes[0] == 0xe0 + x && bytes[1] == 0x80 + y && bytes[2] == 0x80 + z
    ensures Recognised(bytes, 3, x * 0x1000 + y * 0x40 + z)
  {}

  lemma FourRecognised(bytes: seq<Byte>, w: nat, x: nat, y: nat, z: nat)
    requires x < 0x40 && y < 0x40 && z < 0x40 && 0x10000 <= w * 0x40000 + x * 0x1000 + y * 0x40 + z <= 0x10ffff
    requires |bytes| >= 4 && bytes[0] == 0xf0 + w && bytes[1] == 0x80 + x && bytes[2] == 0x80 + y && bytes[3] == 0x80 + z
    ensures Recognised(bytes, 4, w * 0x40000 + x * 0x1000 + y * 0x40 + z)
  {}

  /** One encoded code point, recognised by the grammars. */
  lemma EncodedCharacter(code: Code, rest: seq<Byte>)
    requires code <= 0x10ffff
    ensures Recognised(EncodeCode(code) + rest, |EncodeCode(code)|, code)
  {
    var bytes := EncodeCode(code) + rest;
    var x, y, z := code / 0x1000, code / 0x40 % 0x40, code % 0x40;
    ShiftAgain(code);
    if code >= 0x10000 {
      FourRecognised(bytes, code / 0x40000, x % 0x40, y, z);
    } else if code >= 0x800 {
      ThreeRecognised(bytes, x, y, z);
    }
  }

  /** Absorbing a continuation byte can be undone. */
  lemma AbsorbSplits(code: nat, b: Byte)
    requires Tail(b)
    ensures Absorb(code, b) / 0x40 == code && 0x80 + Absorb(code, b) % 0x40 == b
  {}

  lemma RecognisedTwo(b0: Byte, b1: Byte, c: Code)
    requires CharLength([b0, b1]) == 2 && c == Absorb(LeadBits(b0), b1)
    ensures EncodeCode(c) == [b0, b1]
  {
    AbsorbSplits(LeadBits(b0), b1);
    assert c == (b0 - 0xc0) * 0x40 + (b1 - 0x80);
    assert c / 0x40 == b0 - 0xc0 && c % 0x40 == b1 - 0x80;
  }

  lemma RecognisedThree(b0: Byte, b1: Byte, b2: Byte, c: nat)
    requires UnitLength([b0, b1, b2]) == 3 && c == Absorb(Absorb(LeadBits(b0), b1), b2)
    ensures 0x800 <= c < 0x10000 && EncodeCode(c) == [b0, b1, b2]
  {
    var c1 := Absorb(LeadBits(b0), b1);
    AbsorbSplits(LeadBits(b0), b1);
    AbsorbSplits(c1, b2);
    ShiftAgain(c);
    assert c1 == (b0 - 0xe0) * 0x40 + (b1 - 0x80) && c == c1 * 0x40 + (b2 - 0x80);
    assert c / 0x1000 == b0 - 0xe0;
  }

  lemma RecognisedFour(b0: Byte, b1: Byte, b2: Byte, b3: Byte, c: nat)
    requires CharLength([b0, b1, b2, b3]) == 4 && c == Absorb(Absorb(Absorb(LeadBits(b0), b1), b2), b3)
    ensures 0x10000 <= c <= 0x10ffff && EncodeCode(c) == [b0, b1, b2, b3]
  {
    var c1 := Absorb(LeadBits(b0), b1);
    var c2 := Absorb(c1, b2);
    AbsorbSplits(LeadBits(b0), b1);
    AbsorbSplits(c1, b2);
    AbsorbSplits(c2, b3);
    ShiftAgain(c);
    assert c1 == (b0 - 0xf0) * 0x40 + (b1 - 0x80) && c2 == c1 * 0x40 + (b2 - 0x80) && c == c2 * 0x40 + (b3 - 0x80);
    assert c / 0x1000 == c1 && c / 0x40000 == b0 - 0xf0;
  }

  /** A character the grammars recognise decodes to a code point that encodes
      to the same bytes. */
  lemma RecognisedCharacter(bytes: seq<Byte>)
    requires UnitLength(bytes) > 0
    ensures HeadBytes(bytes) == UnitLength(bytes)
    ensures ReadCode(bytes) <= 0x10ffff
    ensures EncodeCode(ReadCode(bytes)) == bytes[..UnitLength(bytes)]
  {
    var n := UnitLength(bytes);
    var c := Absorbed(bytes, n);
    assert HeadBytes(bytes) == n;
    Unroll(bytes);
    if n == 1 {
      assert bytes[..1] == [bytes[0]];
    } else if n == 2 {
      assert bytes[..2] == [bytes[0], bytes[1]];
      RecognisedTwo(bytes[0], bytes[1], c);
    } else if n == 3 {
      assert bytes[..3] == [bytes[0], bytes[1], bytes[2]];
      RecognisedThree(bytes[0], bytes[1], bytes[2], c);
    } else {
      assert bytes[..4] == [bytes[0], bytes[1], bytes[2], bytes[3]];
      RecognisedFour(bytes[0], bytes[1], bytes[2], bytes[3], c);
    }
  }

  // ---- what the encoder produces ----

  /** The bytes of any text are encodable, and its first unit shows in them. */
  lemma {:induction false} EncodeIsEncodable(text: seq<Unit>)
    ensures Encodable(Encode(text))
    ensures HighAt(Encode(text)) <==> text != [] && High(text[0]) && !OpensWithPair(text)
    ensures LowAt(Encode(text)) <==> text != [] && Low(text[0])
  {
    if text != [] {
      var n := HeadUnits(text);
      var code := HeadCode(text);
      var rest := Encode(text[n..]);
      EncodeIsEncodable(text[n..]);
      EncodedCharacter(code, rest);
      CharacterShape(code);
      EncodeUnfold(text);
      DropFirst(EncodeCode(code), rest);
    }
  }

  /** Encoding continues past one character unless it would join it to the next. */
  lemma EncodeUnits(code: Code, text: seq<Unit>)
    requires code <= 0x10ffff
    requires !(0xd800 <= code <= 0xdbff && text != [] && Low(text[0]))
    ensures Encode(UnitsOf(code) + text) == EncodeCode(code) + Encode(text)
  {
    var units := UnitsOf(code);
    var all := units + text;
    DropFirst(units, text);
    assert HeadUnits(all) == |units| && HeadCode(all) == code;
  }

  /** The first unit of decoded bytes is a low surrogate exactly when one is
      written there. */
  lemma DecodeOpening(bytes: seq<Byte>)
    requires bytes != [] && UnitLength(bytes) > 0
    ensures Decode(bytes) != []
    ensures Low(Decode(bytes)[0]) <==> LowAt(bytes)
    ensures 0xd800 <= ReadCode(bytes) <= 0xdbff <==> HighAt(bytes)
  {
    var code := ReadCode(bytes);
    RecognisedCharacter(bytes);
    EncodedCharacter(code, bytes[UnitLength(bytes)..]);
    Rejoin(bytes, UnitLength(bytes));
  }

  lemma {:induction false} ReencodeEncodable(bytes: seq<Byte>)
    requires Encodable(bytes)
    ensures Encode(Decode(bytes)) == bytes
  {
    if bytes != [] {
      var n := UnitLength(bytes);
      var rest := bytes[n..];
      RecognisedCharacter(bytes);
      DecodeOpening(bytes);
      if rest != [] {
        DecodeOpening(rest);
      }
      DecodeUnfold(bytes);
      ReencodeEncodable(rest);
      EncodeUnits(ReadCode(bytes), Decode(rest));
      Rejoin(bytes, n);
    }
  }

  /** Decoding loses nothing on exactly the encodable bytes. */
  lemma ReencodeExactly(bytes: seq<Byte>)
    ensures Encode(Decode(bytes)) == bytes <==> Encodable(bytes)
  {
    if Encodable(bytes) {
      ReencodeEncodable(bytes);
    } else {
      EncodeIsEncodable(Decode(bytes));
    }
  }

  // ---- well-formedness ----

  /** Dropping the head of a text keeps the pairing of the rest. */
  lemma WellFormed16Step(text: seq<Unit>)
    requires text != []
    ensures WellFormed16(text) <==> !Surrogate(HeadCode(text)) && WellFormed16(text[HeadUnits(text)..])
  {
    var n := HeadUnits(text);
    var rest := text[n..];
    if WellFormed16(text) {
      assert PairedAt(text, 0) && PairedAt(text, n - 1);
      forall i: nat | i < |rest| ensures PairedAt(rest, i) {
        assert PairedAt(text, i + n);
      }
    } else if !Surrogate(HeadCode(text)) && WellFormed16(rest) {
      forall i: nat | i < |text| ensures PairedAt(text, i) {
        if i >= n {
          assert PairedAt(rest, i - n);
        }
      }
    }
  }

  /** A text is well-formed UTF-16 exactly when its encoding is RFC 3629's UTF-8. */
  lemma {:induction false} EncodeWellFormed(text: seq<Unit>)
    ensures WellFormed8(Encode(text)) <==> WellFormed16(text)
  {
    if text != [] {
      var n := HeadUnits(text);
      var code := HeadCode(text);
      var rest := Encode(text[n..]);
      EncodeWellFormed(text[n..]);
      WellFormed16Step(text);
      HeadOfText(text);
      EncodedCharacter(code, rest);
      CharacterShape(code);
      EncodeUnfold(text);
      DropFirst(EncodeCode(code), rest);
    }
  }

  lemma {:induction false} WellFormedIsEncodable(bytes: seq<Byte>)
    requires WellFormed8(bytes)
    ensures Encodable(bytes)
  {
    if bytes != [] {
      WellFormedIsEncodable(bytes[CharLength(bytes)..]);
    }
  }

  /** On the bytes RFC 3629 allows, decoding and encoding are inverse, and they
      carry the standard's UTF-8 to well-formed UTF-16. */
  lemma StandardRoundTrip(bytes: seq<Byte>)
    ensures WellFormed8(bytes) <==> Encode(Decode(bytes)) == bytes && WellFormed16(Decode(bytes))
  {
    EncodeWellFormed(Decode(bytes));
    if WellFormed8(bytes) {
      WellFormedIsEncodable(bytes);
      ReencodeEncodable(bytes);
    }
  }
}
