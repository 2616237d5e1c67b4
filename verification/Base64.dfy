/** The base64 reader of the timing fixture, and the corruption control.

    The reader keeps its bits in one 32-bit accumulator that it never masks, so
    every long text overflows it. RFC 4648 section 4 is the reference: four
    characters are twenty-four bits are three bytes. The reasoning is for any
    alphabet of 64 distinct characters other than the padding one.
  */
module Base64 {
  import opened Bits
  import opened Sequences
  import opened Utf8
  import opened Checksum

  /** `n` characters in a row, from `first` on. */
  function Run(first: char, n: nat): (run: string)
    requires first as nat + n <= 0x80
    ensures |run| == n
  {
    seq(n, i requires 0 <= i < n => (first as int + i) as char)
  }

  const STANDARD := Run('A', 26) + Run('a', 26) + Run('0', 10) + ['+', '/']
  const PAD := '='

  datatype Result<T> = Ok(value: T) | NotBase64

  // ---- characters ----

  /** `indexOf`: the first position of a character, or -1. */
  function IndexOf(s: string, c: char): (i: int)
    ensures -1 <= i < |s|
    ensures i >= 0 ==> s[i] == c
  {
    if s == [] then -1
    else if s[0] == c then 0
    else if IndexOf(s[1..], c) == -1 then -1
    else 1 + IndexOf(s[1..], c)
  }

  lemma {:induction false} IndexOfFirst(s: string, i: nat)
    requires i < |s|
    ensures 0 <= IndexOf(s, s[i]) <= i
  {
    if i > 0 {
      assert s[1..][i - 1] == s[i];
      IndexOfFirst(s[1..], i - 1);
    }
  }

  lemma IndexOfKnown(s: string, c: char)
    ensures c in s <==> IndexOf(s, c) >= 0
  {
    if c in s {
      var i :| 0 <= i < |s| && s[i] == c;
      IndexOfFirst(s, i);
    }
  }

  ghost predicate IsAlphabet(alphabet: string)
  {
    && |alphabet| == 64
    && (forall i, j :: 0 <= i < j < 64 ==> alphabet[i] != alphabet[j])
    && PAD !in alphabet
  }

  /** What `indexOf` gives for each character. */
  function Indices(alphabet: string, text: string): (indices: seq<int>)
    ensures |indices| == |text|
  {
    seq(|text|, i requires 0 <= i < |text| => IndexOf(alphabet, text[i]))
  }

  /** Six-bit numbers, and no character that is not of the alphabet. */
  predicate Digits(indices: seq<int>) { forall i :: 0 <= i < |indices| ==> 0 <= indices[i] < 64 }

  /** `replace(/[=]+$/, '')` */
  function StripPadding(text: string): (clean: string)
    ensures clean <= text
  {
    if text != [] && text[|text| - 1] == PAD then StripPadding(text[..|text| - 1]) else text
  }

  // ---- the reference: one string of bits ----

  /** The bits of the digits end to end, the most significant of each first. */
  function DigitStream(digits: seq<int>, p: nat): nat
    requires Digits(digits) && p < 6 * |digits|
  {
    Bit(digits[p / 6], 5 - p % 6)
  }

  /** The bits of the bytes end to end, with zero bits after them. */
  function ByteStream(bytes: seq<Byte>, p: nat): nat
  {
    if p / 8 < |bytes| then Bit(bytes[p / 8], 7 - p % 8) else 0
  }

  /** The bytes that `digits` stand for: as many as their bits fill, each bit
      of a byte a bit of the digits. */
  ghost predicate Decodes(digits: seq<int>, bytes: seq<Byte>)
    requires Digits(digits)
  {
    && |bytes| == 3 * |digits| / 4
    && forall p: nat :: p < 8 * |bytes| ==> ByteStream(bytes, p) == DigitStream(digits, p)
  }

  // ---- the reader ----

  /** Eight of the twelve bits of two digits, `bits` from the right. */
  function Slice(first: int, second: int, bits: nat): Byte
  {
    (first * 64 + second) / Pow2(bits) % 256
  }

  /** The byte read at position `i`: eight bits of two neighbouring digits. */
  function ByteAt(digits: seq<int>, i: nat): Byte
    requires 8 * i + 8 <= 6 * |digits|
  {
    Slice(digits[8 * i / 6], digits[8 * i / 6 + 1], 4 - 2 * (i % 3))
  }

  function BytesOf(digits: seq<int>): (bytes: seq<Byte>)
    ensures |bytes| == 3 * |digits| / 4
  {
    seq(3 * |digits| / 4, i requires 0 <= i < 3 * |digits| / 4 => ByteAt(digits, i))
  }

  /** What reading comes to. */
  function ReadIndices(indices: seq<int>): Result<seq<Byte>>
  {
    if Digits(indices) then Ok(BytesOf(indices)) else NotBase64
  }

  function Read(alphabet: string, text: string): Result<seq<Byte>>
  {
    ReadIndices(Indices(alphabet, StripPadding(text)))
  }

  lemma Multiples(k: int, r: int)
    requires 0 <= r < 4096
    ensures (k * 4096 + r) % 4096 == r
    ensures (k * 4096 + r) / 16 == k * 256 + r / 16
    ensures (k * 4096 + r) / 4 == k * 1024 + r / 4
  {}

  lemma LowEight(k: int, r: int)
    ensures (k * 256 + r) % 256 == r % 256
  {
    var q, m := r / 256, r % 256;
    assert k * 256 + r == (k + q) * 256 + m;
  }

  lemma LowTwelve(k: int, pair: int)
    requires 0 <= pair < 4096
    ensures (k * 4096 + pair) % 4096 == pair
    ensures (k * 4096 + pair) / 16 % 256 == pair / 16 % 256
    ensures (k * 4096 + pair) / 4 % 256 == pair / 4 % 256
    ensures (k * 4096 + pair) % 256 == pair % 256
  {
    Multiples(k, pair);
    LowEight(k, pair / 16);
    LowEight(k * 4, pair / 4);
    LowEight(k * 16, pair);
  }

  lemma LowSix(k: int, digit: int)
    requires 0 <= digit < 64
    ensures (k * 64 + digit) % 64 == digit
  {}

  /** `(value << 6) | index`: the last two digits stand at the bottom of the
      accumulator, however often it has overflowed. */
  method PushDigit(value: int, index: int) returns (after: int)
    requires 0 <= index < 64
    ensures after % 64 == index
    ensures after % 4096 == value % 64 * 64 + index
  {
    var n := value * 64 + index;
    after := ToInt32(n);
    ghost var lost := LostBits(n);
    ghost var pair := value % 64 * 64 + index;
    ghost var k := value / 64 - lost * 0x100000;
    assert after == n - lost * TWO_32 == k * 4096 + pair;
    LowTwelve(k, pair);
    LowSix(k * 64 + value % 64, index);
  }

  /** `(value >> bits) & 0xff` */
  method TakeByte(value: int, bits: nat) returns (b: Byte)
    requires bits == 0 || bits == 2 || bits == 4
    ensures b == value % 4096 / Pow2(bits) % 256
  {
    b := value / Pow2(bits) % 256;
    SmallPowers();
    LowTwelve(value / 4096, value % 4096);
    assert value == value / 4096 * 4096 + value % 4096;
  }

  /** Where the byte that comes out after character `i` lies. */
  lemma Position(i: nat, at: nat, bits: nat)
    requires 8 * at + 8 + bits == 6 * (i + 1) && bits < 6
    ensures i >= 1 && 8 * at / 6 == i - 1 && bits == 4 - 2 * (at % 3)
    ensures bits == 0 || bits == 2 || bits == 4
  {
    var m, r := at / 3, at % 3;
    assert at == 3 * m + r;
    assert 6 * (i - 4 * m) == 8 * r + 2 + bits;
    assert i - 4 * m == r + 1;
  }

  lemma SliceAt(digits: seq<int>, i: nat, at: nat, bits: nat)
    requires 8 * at + 8 + bits == 6 * (i + 1) && bits < 6 && i < |digits|
    ensures i >= 1 && at < |BytesOf(digits)| && (bits == 0 || bits == 2 || bits == 4)
    ensures BytesOf(digits)[at] == Slice(digits[i - 1], digits[i], bits)
  {
    Position(i, at, bits);
  }

  /** The reading loop: six bits go into the accumulator, and a byte comes out
      whenever eight are pending. Every write is within the buffer. */
  method FromIndices(indices: seq<int>) returns (r: Result<seq<Byte>>)
    requires forall i :: 0 <= i < |indices| ==> -1 <= indices[i] < 64
    ensures r == ReadIndices(indices)
  {
    var bytes := new Byte[3 * |indices| / 4](_ => 0);
    var bits, value, at := 0, 0, 0;
    for i := 0 to |indices|
      invariant forall k :: 0 <= k < i ==> 0 <= indices[k]
      invariant 8 * at + bits == 6 * i && 0 <= bits < 8 && 0 <= at <= bytes.Length
      invariant i >= 1 ==> value % 64 == indices[i - 1]
      invariant bytes[..][..at] == BytesOf(indices)[..at]
    {
      var index := indices[i];
      if index == -1 {
        return NotBase64;
      }
      value := PushDigit(value, index);
      bits := bits + 6;
      if bits >= 8 {
        bits := bits - 8;
        SliceAt(indices, i, at, bits);
        bytes[at] := TakeByte(value, bits);
        TakeGrows(bytes[..], BytesOf(indices), at);
        at := at + 1;
      }
    }
    TakeAll(bytes[..], BytesOf(indices), at);
    r := Ok(bytes[..]);
  }

  method FromBase64(alphabet: string, text: string) returns (r: Result<seq<Byte>>)
    requires |alphabet| == 64
    ensures r == Read(alphabet, text)
  {
    r := FromIndices(Indices(alphabet, StripPadding(text)));
  }

  // ---- what the reader rejects ----

  /** From `i` on there is only padding. */
  ghost predicate OnlyPadding(text: string, i: nat)
  {
    forall k :: i <= k < |text| ==> text[k] == '='
  }

  /** What is stripped is padding, all that there is at the end. */
  lemma {:induction false} StrippedIsPadding(text: string)
    ensures OnlyPadding(text, |StripPadding(text)|)
    ensures forall i :: 0 <= i < |StripPadding(text)| ==> !OnlyPadding(text, i)
  {
    var n := |text| - 1;
    if text != [] && text[n] == PAD {
      var front := text[..n];
      StrippedIsPadding(front);
      forall i | 0 <= i < |StripPadding(front)| ensures !OnlyPadding(text, i) {
        assert !OnlyPadding(front, i);
        var k :| i <= k < n && front[k] != '=';
        assert text[k] == front[k];
      }
    } else if text != [] {
      forall i | 0 <= i <= n ensures !OnlyPadding(text, i) {
        assert text[n] != '=';
      }
    }
  }

  /** The reader rejects exactly the texts that have, before the padding at their
      end, a character that is not of the alphabet. */
  lemma RejectsStrangers(alphabet: string, text: string)
    requires |alphabet| == 64
    ensures Read(alphabet, text).NotBase64? <==> exists i :: 0 <= i < |text| && text[i] !in alphabet && !OnlyPadding(text, i)
  {
    var clean := StripPadding(text);
    StrippedIsPadding(text);
    forall i | 0 <= i < |clean| ensures (0 <= Indices(alphabet, clean)[i] < 64 <==> text[i] in alphabet) && !OnlyPadding(text, i) {
      IndexOfKnown(alphabet, clean[i]);
      assert clean[i] == text[i];
    }
    forall i | |clean| <= i < |text| ensures OnlyPadding(text, i) {}
    if Read(alphabet, text).NotBase64? {
      var i :| 0 <= i < |clean| && !(0 <= Indices(alphabet, clean)[i] < 64);
      assert text[i] !in alphabet;
    }
  }

  // ---- the reader meets the reference ----

  /** The bits of a slice are bits of its two digits. */
  lemma SliceBits(first: nat, second: nat, bits: nat, k: nat)
    requires second < 64 && k < 8 && (bits == 0 || bits == 2 || bits == 4)
    ensures Bit(Slice(first, second, bits), k) ==
      if k + bits < 6 then Bit(second, k + bits) else Bit(first, k + bits - 6)
  {
    SmallPowers();
    var pair := first * 64 + second;
    MaskBits(pair / Pow2(bits), k);
    ShiftBits(pair, k);
    JoinBits(first, second, 6, k + bits);
  }

  /** Where bit `p` of the stream lies, counted in bytes and in digits. */
  lemma StreamPosition(p: nat)
    ensures var i, q, t := p / 8, 8 * (p / 8) / 6, 2 * (p / 8 % 3) + p % 8;
      p / 6 == (if t < 6 then q else q + 1) && p % 6 == (if t < 6 then t else t - 6)
  {
    var m, r := p / 8 / 3, p / 8 % 3;
    assert p / 8 == 3 * m + r;
    assert 8 * (p / 8) == 6 * (4 * m + r) + 2 * r;
    assert 8 * (p / 8) / 6 == 4 * m + r;
    assert p == 6 * (4 * m + r) + (2 * r + p % 8);
  }

  /** The reader's bytes have the bits RFC 4648 gives them. */
  lemma ReaderDecodes(digits: seq<int>)
    requires Digits(digits)
    ensures Decodes(digits, BytesOf(digits))
  {
    var bytes := BytesOf(digits);
    forall p: nat | p < 8 * |bytes| ensures ByteStream(bytes, p) == DigitStream(digits, p) {
      var i := p / 8;
      var q := 8 * i / 6;
      assert 0 <= digits[q] < 64 && 0 <= digits[q + 1] < 64;
      SliceBits(digits[q], digits[q + 1], 4 - 2 * (i % 3), 7 - p % 8);
      StreamPosition(p);
    }
  }

  lemma SameStream(a: seq<Byte>, b: seq<Byte>)
    requires |a| == |b|
    requires forall p: nat :: p < 8 * |a| ==> ByteStream(a, p) == ByteStream(b, p)
    ensures a == b
  {
    SmallPowers();
    forall i: nat | i < |a| ensures a[i] == b[i] {
      forall k: nat | k < 8 ensures Bit(a[i], k) == Bit(b[i], k) {
        var p := 8 * i + (7 - k);
        assert ByteStream(a, p) == ByteStream(b, p);
      }
      SameBits(a[i], b[i], 8);
    }
  }

  /** And they are the only bytes with those bits: the reader is the reference. */
  lemma ReaderIsReference(digits: seq<int>, bytes: seq<Byte>)
    requires Digits(digits)
    ensures Decodes(digits, bytes) <==> bytes == BytesOf(digits)
  {
    ReaderDecodes(digits);
    if Decodes(digits, bytes) {
      SameStream(bytes, BytesOf(digits));
    }
  }

  // ---- the standard's encoding ----

  function StreamBits(bytes: seq<Byte>, from: nat): (bits: seq<nat>)
    ensures |bits| == 6
  {
    seq<nat>(6, k requires 0 <= k < 6 => ByteStream(bytes, from + k))
  }

  lemma StreamIsBinary(bytes: seq<Byte>, p: nat)
    ensures ByteStream(bytes, p) < 2
  {
    if p / 8 < |bytes| {
      BitIsBinary(bytes[p / 8], 7 - p % 8);
    }
  }

  /** The six-bit groups of a byte string, the last one filled with zero bits. */
  function EncodedDigits(bytes: seq<Byte>): (digits: seq<int>)
  {
    seq((8 * |bytes| + 5) / 6, j requires 0 <= j => Gather(StreamBits(bytes, 6 * j)))
  }

  /** One group holds its six bits of the stream. */
  lemma EncodedGroup(bytes: seq<Byte>, j: nat, k: nat)
    requires k < 6
    ensures Gather(StreamBits(bytes, 6 * j)) < 64
    ensures Bit(Gather(StreamBits(bytes, 6 * j)), 5 - k) == ByteStream(bytes, 6 * j + k)
  {
    var bits := StreamBits(bytes, 6 * j);
    forall i | 0 <= i < 6 ensures bits[i] < 2 { StreamIsBinary(bytes, 6 * j + i); }
    GatherBits(bits, k);
    SmallPowers();
  }

  lemma EncodedDecodes(bytes: seq<Byte>)
    ensures Digits(EncodedDigits(bytes)) && Decodes(EncodedDigits(bytes), bytes)
  {
    var digits := EncodedDigits(bytes);
    forall j | 0 <= j < |digits| ensures 0 <= digits[j] < 64 { EncodedGroup(bytes, j, 0); }
    forall p: nat | p < 8 * |bytes| ensures ByteStream(bytes, p) == DigitStream(digits, p) {
      EncodedGroup(bytes, p / 6, p % 6);
      assert p == 6 * (p / 6) + p % 6;
    }
  }

  function Characters(alphabet: string, digits: seq<int>): (text: string)
    requires |alphabet| == 64 && Digits(digits)
    ensures |text| == |digits|
  {
    seq(|digits|, i requires 0 <= i < |digits| => alphabet[digits[i]])
  }

  /** A last group of two or three characters is filled up to four. */
  function Padding(n: nat): string
  {
    if n % 4 == 2 then [PAD, PAD] else if n % 4 == 3 then [PAD] else []
  }

  /** RFC 4648 section 4. */
  function StandardEncode(alphabet: string, bytes: seq<Byte>): string
    requires |alphabet| == 64
  {
    EncodedDecodes(bytes);
    Characters(alphabet, EncodedDigits(bytes)) + Padding(|EncodedDigits(bytes)|)
  }

  lemma StripOnlyPadding(clean: string, pads: nat)
    requires PAD !in clean && pads <= 2
    ensures StripPadding(clean + seq(pads, _ => PAD)) == clean
  {
    var text := clean + seq(pads, _ => PAD);
    if pads == 0 {
      assert text == clean;
    } else {
      assert text[..|text| - 1] == clean + seq(pads - 1, _ => PAD);
      StripOnlyPadding(clean, pads - 1);
    }
  }

  /** Characters of an alphabet are read back as their digits. */
  lemma IndicesOfCharacters(alphabet: string, digits: seq<int>)
    requires IsAlphabet(alphabet) && Digits(digits)
    ensures Indices(alphabet, Characters(alphabet, digits)) == digits
    ensures PAD !in Characters(alphabet, digits)
  {
    forall i | 0 <= i < |digits| ensures IndexOf(alphabet, alphabet[digits[i]]) == digits[i] {
      IndexOfFirst(alphabet, digits[i]);
    }
  }

  /** Reading the standard's encoding of any bytes returns those bytes. */
  lemma ReadStandardEncoding(alphabet: string, bytes: seq<Byte>)
    requires IsAlphabet(alphabet)
    ensures Read(alphabet, StandardEncode(alphabet, bytes)) == Ok(bytes)
  {
    var digits := EncodedDigits(bytes);
    EncodedDecodes(bytes);
    IndicesOfCharacters(alphabet, digits);
    var pads := |Padding(|digits|)|;
    assert Padding(|digits|) == seq(pads, _ => PAD);
    StripOnlyPadding(Characters(alphabet, digits), pads);
    ReaderIsReference(digits, bytes);
  }

  lemma StandardIsAlphabet()
    ensures IsAlphabet(STANDARD) && 'A' in STANDARD && 'B' in STANDARD
  {
    assert STANDARD[0] == 'A' && STANDARD[1] == 'B';
  }

  lemma StandardSpelled()
    ensures Run('A', 26) == "ABCDEFGHIJKLMNOPQRSTUVWXYZ"
    ensures Run('a', 26) == "abcdefghijklmnopqrstuvwxyz"
    ensures Run('0', 10) == "0123456789"
  {}

  // ---- the corruption control ----

  datatype Corruption = Refused | Corrupted(text: string)

  function CorruptOneCharacter(text: string): Corruption
  {
    if |text| <= 8 then Refused
    else
      var index := |text| / 2;
      var replacement := if text[index] == 'A' then 'B' else 'A';
      Corrupted(text[..index] + [replacement] + text[index + 1..])
  }

  /** Whether `x` and `y` differ at `i` and nowhere else. */
  ghost predicate DifferOnlyAt<T>(x: seq<T>, y: seq<T>, i: nat)
  {
    |x| == |y| && i < |x| && x[i] != y[i] && forall k :: 0 <= k < |x| && k != i ==> x[k] == y[k]
  }

  /** Digits that differ at one position before the last decode to bytes that
      differ, and only in the one or two bytes its six bits fall in. */
  lemma OneDigitChange(x: seq<int>, y: seq<int>, at: nat)
    requires Digits(x) && Digits(y) && DifferOnlyAt(x, y, at) && at + 1 < |x|
    ensures |BytesOf(x)| == |BytesOf(y)|
    ensures BytesOf(x) != BytesOf(y)
    ensures forall i :: 0 <= i < |BytesOf(x)| && i != 6 * at / 8 && i != (6 * at + 5) / 8 ==> BytesOf(x)[i] == BytesOf(y)[i]
  {
    forall i | 0 <= i < |BytesOf(x)| && i != 6 * at / 8 && i != (6 * at + 5) / 8
      ensures BytesOf(x)[i] == BytesOf(y)[i]
    {
      assert 8 * i / 6 != at && 8 * i / 6 + 1 != at;
    }
    if BytesOf(x) == BytesOf(y) {
      ReaderDecodes(x);
      ReaderDecodes(y);
      SmallPowers();
      forall k: nat | k < 6 ensures Bit(x[at], k) == Bit(y[at], k) {
        var p := 6 * at + (5 - k);
        assert ByteStream(BytesOf(x), p) == DigitStream(x, p) && ByteStream(BytesOf(y), p) == DigitStream(y, p);
      }
      SameBits(x[at], y[at], 6);
    }
  }

  /** A character that has a digit is not the padding one. */
  lemma NothingToStrip(alphabet: string, text: string)
    requires IsAlphabet(alphabet) && Digits(Indices(alphabet, text))
    ensures StripPadding(text) == text
  {
    if text != [] {
      assert Indices(alphabet, text)[|text| - 1] == IndexOf(alphabet, text[|text| - 1]);
    }
  }

  /** Texts of the alphabet that differ at one place have digits that do. */
  lemma IndicesDiffer(alphabet: string, x: string, y: string, at: nat)
    requires Digits(Indices(alphabet, x)) && DifferOnlyAt(x, y, at) && y[at] in alphabet && |alphabet| == 64
    ensures Digits(Indices(alphabet, y)) && DifferOnlyAt(Indices(alphabet, x), Indices(alphabet, y), at)
  {
    var i, j := Indices(alphabet, x), Indices(alphabet, y);
    IndexOfKnown(alphabet, y[at]);
    assert forall k :: 0 <= k < |x| ==> i[k] == IndexOf(alphabet, x[k]) && j[k] == IndexOf(alphabet, y[k]);
    assert forall k :: 0 <= k < |x| && k != at ==> x[k] == y[k];
  }

  /** The control corrupts every text but the shortest, which it refuses: one
      character becomes an 'A', or a 'B' if it was one, and the bytes the text stands
      for change in one place. */
  lemma CorruptionCorrupts(alphabet: string, text: string)
    requires IsAlphabet(alphabet) && 'A' in alphabet && 'B' in alphabet
    requires Digits(Indices(alphabet, text))
    ensures CorruptOneCharacter(text).Refused? <==> |text| <= 8
    ensures |text| > 8 ==> var c := CorruptOneCharacter(text);
      && DifferOnlyAt(text, c.text, |text| / 2)
      && (c.text[|text| / 2] == 'A' || (text[|text| / 2] == 'A' && c.text[|text| / 2] == 'B'))
      && Digits(Indices(alphabet, c.text))
      && var x, y := Read(alphabet, text), Read(alphabet, c.text);
         && x.Ok? && y.Ok? && |x.value| == |y.value| && x != y
         && var first := 6 * (|text| / 2) / 8;
            forall i :: 0 <= i < |x.value| && i != first && i != first + 1 ==> x.value[i] == y.value[i]
  {
    if |text| > 8 {
      var changed := CorruptOneCharacter(text).text;
      var at := |text| / 2;
      IndicesDiffer(alphabet, text, changed, at);
      NothingToStrip(alphabet, text);
      NothingToStrip(alphabet, changed);
      OneDigitChange(Indices(alphabet, text), Indices(alphabet, changed), at);
      assert 6 * at / 8 <= (6 * at + 5) / 8 <= 6 * at / 8 + 1;
    }
  }
}
