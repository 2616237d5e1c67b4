/** The hand-written UTF-8 codec of the interoperability suite.

    A JavaScript string is a sequence of 16-bit units and may hold unpaired
    surrogates. The codec's shifts, masks and ORs are written over integers
    with `/`, `%` and `+`; the lemmas of module `BitForms` show, on 32-bit
    vectors, that each is the source's own bit expression.
  */
module Utf8 {
  import opened Sequences

  type Unit = u: int | 0 <= u < 0x10000
  type Byte = b: int | 0 <= b < 0x100
  /** The numbers the codec computes with: at most 21 bits. */
  type Code = c: int | 0 <= c < 0x200000

  // ---- units and code points ----

  predicate High(u: Unit) { 0xd800 <= u <= 0xdbff }

  predicate Low(u: Unit) { 0xdc00 <= u <= 0xdfff }

  /** Whether the text opens with a surrogate pair. */
  predicate OpensWithPair(text: seq<Unit>)
  {
    |text| > 1 && High(text[0]) && Low(text[1])
  }

  function PairCode(high: Unit, low: Unit): Code
    requires High(high) && Low(low)
  {
    0x10000 + (high - 0xd800) * 0x400 + (low - 0xdc00)
  }

  /** How many units the encoder consumes at the head of the text. */
  function HeadUnits(text: seq<Unit>): nat
  {
    if OpensWithPair(text) then 2 else 1
  }

  /** The code point the encoder reads at the head of the text. */
  function HeadCode(text: seq<Unit>): Code
    requires text != []
  {
    if OpensWithPair(text) then PairCode(text[0], text[1]) else text[0]
  }

  predicate PairedAt(text: seq<Unit>, i: nat)
    requires i < |text|
  {
    && (High(text[i]) ==> i + 1 < |text| && Low(text[i + 1]))
    && (Low(text[i]) ==> 0 < i && High(text[i - 1]))
  }

  /** Text whose surrogates all come in pairs: well-formed UTF-16. */
  ghost predicate WellFormed16(text: seq<Unit>)
  {
    forall i: nat :: i < |text| ==> PairedAt(text, i)
  }

  // ---- encoding ----

  function EncodeCode(code: Code): seq<Byte>
  {
    if code < 0x80 then
      [code]
    else if code < 0x800 then
      [0xc0 + code / 0x40, 0x80 + code % 0x40]
    else if code < 0x10000 then
      [0xe0 + code / 0x1000, 0x80 + code / 0x40 % 0x40, 0x80 + code % 0x40]
    else
      [0xf0 + code / 0x40000, 0x80 + code / 0x1000 % 0x40, 0x80 + code / 0x40 % 0x40, 0x80 + code % 0x40]
  }

  function Encode(text: seq<Unit>): seq<Byte>
  {
    if text == [] then [] else EncodeCode(HeadCode(text)) + Encode(text[HeadUnits(text)..])
  }

  lemma EncodeUnfold(text: seq<Unit>)
    requires text != []
    ensures Encode(text) == EncodeCode(HeadCode(text)) + Encode(text[HeadUnits(text)..])
  {}

  lemma HeadAt(text: seq<Unit>, i: nat)
    requires i < |text|
    ensures var pair := i + 1 < |text| && High(text[i]) && Low(text[i + 1]);
      && HeadUnits(text[i..]) == (if pair then 2 else 1)
      && HeadCode(text[i..]) == if pair then PairCode(text[i], text[i + 1]) else text[i]
  {}

  /** One turn of the encoder's loop. */
  lemma EncodeMore(text: seq<Unit>, i: nat, out: seq<Byte>)
    requires i < |text| && out + Encode(text[i..]) == Encode(text)
    ensures var rest := text[i..];
      i + HeadUnits(rest) <= |text| && out + EncodeCode(HeadCode(rest)) + Encode(text[i + HeadUnits(rest)..]) == Encode(text)
  {
    var rest := text[i..];
    EncodeUnfold(rest);
    DropAgain(text, i, HeadUnits(rest));
    Progress(Encode(text), out, Encode(rest), EncodeCode(HeadCode(rest)), Encode(rest[HeadUnits(rest)..]));
  }

  /** The encoder's loop. */
  method Utf8Encode(text: seq<Unit>) returns (out: seq<Byte>)
    ensures out == Encode(text)
  {
    out := [];
    var i := 0;
    while i < |text|
      invariant 0 <= i <= |text|
      invariant out + Encode(text[i..]) == Encode(text)
    {
      HeadAt(text, i);
      EncodeMore(text, i, out);
      var code: Code := text[i];
      if High(text[i]) && i + 1 < |text| {
        var low := text[i + 1];
        if Low(low) {
          code := PairCode(text[i], low);
          i := i + 1;
        }
      }
      i := i + 1;
      out := out + EncodeCode(code);
    }
  }

  // ---- decoding ----

  /** How many bytes the decoder takes on the strength of a first byte. */
  function LeadWidth(first: Byte): nat
  {
    if first < 0x80 then 1
    else if 0xc0 <= first < 0xe0 then 2
    else if 0xe0 <= first < 0xf0 then 3
    else 4
  }

  /** The bits of a first byte that belong to the code point. */
  function LeadBits(first: Byte): Code
  {
    if first < 0x80 then first
    else if 0xc0 <= first < 0xe0 then first - 0xc0
    else if 0xe0 <= first < 0xf0 then first - 0xe0
    else first % 0x08
  }

  function Absorb(code: nat, b: Byte): nat { code * 0x40 + b % 0x40 }

  /** The code point after `k` bytes. */
  function Absorbed(bytes: seq<Byte>, k: nat): nat
    requires 1 <= k <= |bytes|
  {
    if k == 1 then LeadBits(bytes[0]) else Absorb(Absorbed(bytes, k - 1), bytes[k - 1])
  }

  /** How many bytes the decoder consumes at the head: a truncated last
      character gives what is left. */
  function HeadBytes(bytes: seq<Byte>): (n: nat)
    requires bytes != []
    ensures 1 <= n <= |bytes|
  {
    if LeadWidth(bytes[0]) <= |bytes| then LeadWidth(bytes[0]) else |bytes|
  }

  /** The inner loop has at most three turns. */
  lemma Unroll(bytes: seq<Byte>)
    requires bytes != []
    ensures |bytes| > 1 ==> Absorbed(bytes, 2) == Absorb(LeadBits(bytes[0]), bytes[1])
    ensures |bytes| > 2 ==> Absorbed(bytes, 3) == Absorb(Absorbed(bytes, 2), bytes[2])
    ensures |bytes| > 3 ==> Absorbed(bytes, 4) == Absorb(Absorbed(bytes, 3), bytes[3])
  {
    assert Absorbed(bytes, 1) == LeadBits(bytes[0]);
  }

  /** The bytes a first byte announces hold a code point of at most 21 bits, and
      of at most 16 bits when there are fewer than four. */
  lemma AbsorbedBound(bytes: seq<Byte>, k: nat)
    requires 1 <= k <= |bytes| && k <= LeadWidth(bytes[0])
    ensures Absorbed(bytes, k) < 0x200000
    ensures k < 4 ==> Absorbed(bytes, k) < 0x10000
  {
    Unroll(bytes);
  }

  function ReadCode(bytes: seq<Byte>): Code
    requires bytes != []
  {
    AbsorbedBound(bytes, HeadBytes(bytes));
    Absorbed(bytes, HeadBytes(bytes))
  }

  /** `String.fromCharCode` on a code point; the numbers stay within 16 bits
      even for the code points past the last legal one. */
  function UnitsOf(code: Code): seq<Unit>
  {
    if code > 0xffff then
      [0xd800 + (code - 0x10000) / 0x400, 0xdc00 + (code - 0x10000) % 0x400]
    else
      [code]
  }

  function Decode(bytes: seq<Byte>): seq<Unit>
  {
    if bytes == [] then [] else UnitsOf(ReadCode(bytes)) + Decode(bytes[HeadBytes(bytes)..])
  }

  lemma DecodeUnfold(bytes: seq<Byte>)
    requires bytes != []
    ensures Decode(bytes) == UnitsOf(ReadCode(bytes)) + Decode(bytes[HeadBytes(bytes)..])
  {}

  lemma AbsorbedMore(bytes: seq<Byte>, i: nat, k: nat)
    requires i + k < |bytes| && 1 <= k
    ensures Absorbed(bytes[i..], k + 1) == Absorb(Absorbed(bytes[i..], k), bytes[i + k])
  {}

  /** The decoder's inner loop: the code point at `i`, from as many of its
      bytes as there are. */
  method ReadCharacter(bytes: seq<Byte>, i: nat) returns (code: nat, width: nat)
    requires i < |bytes|
    ensures code == ReadCode(bytes[i..]) && width == LeadWidth(bytes[i])
  {
    ghost var rest := bytes[i..];
    code, width := LeadBits(bytes[i]), LeadWidth(bytes[i]);
    var k := 1;
    while k < width && i + k < |bytes|
      invariant 1 <= k <= HeadBytes(rest)
      invariant code == Absorbed(rest, k)
    {
      AbsorbedMore(bytes, i, k);
      code := Absorb(code, bytes[i + k]);
      k := k + 1;
    }
  }

  /** The decoder's outer loop. Truncated bytes carry the index past their end. */
  method Utf8Decode(bytes: seq<Byte>) returns (out: seq<Unit>)
    ensures out == Decode(bytes)
  {
    out := [];
    var i := 0;
    ghost var read := 0;
    while i < |bytes|
      invariant 0 <= i && read == if i < |bytes| then i else |bytes|
      invariant out + Decode(bytes[read..]) == Decode(bytes)
    {
      var code, width := ReadCharacter(bytes, i);
      read := if i + width < |bytes| then i + width else |bytes|;
      DecodeUnfold(bytes[i..]);
      DropAgain(bytes, i, read - i);
      Progress(Decode(bytes), out, Decode(bytes[i..]), UnitsOf(code), Decode(bytes[read..]));
      i := i + width;
      out := out + UnitsOf(code);
    }
  }

  // ---- one encoded character ----

  predicate Continuation(b: Byte) { 0x80 <= b < 0xc0 }

  /** The encoder's head is a code point, and its units are those of the text. */
  lemma HeadOfText(text: seq<Unit>)
    requires text != []
    ensures HeadCode(text) <= 0x10ffff
    ensures UnitsOf(HeadCode(text)) == text[..HeadUnits(text)]
  {}

  /** A last continuation byte gives its six bits back. */
  lemma AbsorbLow(code: nat)
    ensures Absorb(code / 0x40, 0x80 + code % 0x40) == code
  {}

  lemma ShiftAgain(code: nat)
    ensures code / 0x1000 == code / 0x40 / 0x40
    ensures code / 0x40000 == code / 0x1000 / 0x40
  {}

  /** One character's bytes: a first byte that announces their number, and
      continuation bytes after it. */
  lemma CharacterShape(code: Code)
    ensures var e := EncodeCode(code);
      && 1 <= |e| == LeadWidth(e[0])
      && !Continuation(e[0])
      && (forall k :: 1 <= k < |e| ==> Continuation(e[k]))
      && LeadBits(e[0]) == code / (if |e| == 1 then 1 else if |e| == 2 then 0x40 else if |e| == 3 then 0x1000 else 0x40000)
  {}

  /** Each continuation byte shifts its six bits back in. */
  lemma Restored(all: seq<Byte>, code: Code, n: nat)
    requires 2 <= n <= 4 && n == |EncodeCode(code)| <= |all| && all[..n] == EncodeCode(code)
    ensures Absorbed(all, n) == code
  {
    var e := all[..n];
    assert e[0] == all[0] && e[1] == all[1] && (n > 2 ==> e[2] == all[2]) && (n > 3 ==> e[3] == all[3]);
    CharacterShape(code);
    ShiftAgain(code);
    AbsorbLow(code);
    AbsorbLow(code / 0x40);
    AbsorbLow(code / 0x1000);
    Unroll(all);
  }

  /** The decoder reads the code point back off them, whatever follows. */
  lemma CharacterBytes(code: Code, rest: seq<Byte>)
    ensures HeadBytes(EncodeCode(code) + rest) == |EncodeCode(code)|
    ensures ReadCode(EncodeCode(code) + rest) == code
  {
    var e := EncodeCode(code);
    var all := e + rest;
    CharacterShape(code);
    assert all[0] == e[0];
    assert Absorbed(all, 1) == LeadBits(e[0]);
    if |e| > 1 {
      Restored(all, code, |e|);
    }
  }

  // ---- the round trip ----

  /** Decoding what was encoded gives the text back, unpaired surrogates included. */
  lemma {:induction false} DecodeEncode(text: seq<Unit>)
    ensures Decode(Encode(text)) == text
  {
    if text != [] {
      var n := HeadUnits(text);
      var rest := Encode(text[n..]);
      HeadOfText(text);
      CharacterBytes(HeadCode(text), rest);
      DropFirst(EncodeCode(HeadCode(text)), rest);
      DecodeEncode(text[n..]);
      Rejoin(text, n);
    }
  }

  /** So no two texts share an encoding. */
  lemma EncodeInjective(a: seq<Unit>, b: seq<Unit>)
    ensures Encode(a) == Encode(b) <==> a == b
  {
    DecodeEncode(a);
    DecodeEncode(b);
  }

  /** The decoder never emits more units than it reads bytes. */
  lemma {:induction false} DecodeLength(bytes: seq<Byte>)
    ensures |Decode(bytes)| <= |bytes|
  {
    if bytes != [] {
      AbsorbedBound(bytes, HeadBytes(bytes));
      DecodeLength(bytes[HeadBytes(bytes)..]);
    }
  }

  // ---- the ASCII-only decoder ----

  const REPLACEMENT: Unit := 0xfffd

  function DecodeAscii(bytes: seq<Byte>): (units: seq<Unit>)
    ensures |units| == |bytes|
  {
    seq(|bytes|, i requires 0 <= i < |bytes| => if bytes[i] < 0x80 then bytes[i] else REPLACEMENT)
  }

  /** The walkthrough's decoder, which replaces what is not ASCII. */
  method AsciiDecode(bytes: seq<Byte>) returns (out: seq<Unit>)
    ensures out == DecodeAscii(bytes)
    ensures |out| == |bytes| && forall i :: 0 <= i < |out| ==> out[i] == if bytes[i] < 0x80 then bytes[i] else 0xfffd
  {
    out := [];
    for i := 0 to |bytes|
      invariant out == DecodeAscii(bytes)[..i]
    {
      out := out + [if bytes[i] < 0x80 then bytes[i] else REPLACEMENT];
    }
  }

  /** The two decoders agree on ASCII and on nothing else. */
  lemma {:induction false} AsciiAgreement(bytes: seq<Byte>)
    ensures Decode(bytes) == DecodeAscii(bytes) <==> forall i :: 0 <= i < |bytes| ==> bytes[i] < 0x80
  {
    if bytes != [] {
      var n := HeadBytes(bytes);
      var rest := bytes[n..];
      var units := UnitsOf(ReadCode(bytes));
      if bytes[0] < 0x80 {
        AsciiAgreement(rest);
        assert forall i :: 0 <= i < |rest| ==> rest[i] == bytes[i + 1];
        assert DecodeAscii(bytes) == units + DecodeAscii(rest);
        Cancel(units, Decode(rest), DecodeAscii(rest));
      } else if n > 1 {
        AbsorbedBound(bytes, n);
        DecodeLength(rest);
      } else {
        assert Decode(bytes)[0] == units[0] < 0x20;
      }
    }
  }

}
