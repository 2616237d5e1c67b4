/** The 32-bit FNV-1a checksums of the example app, and the cutting of a byte
    string into buffers.

    A JavaScript bitwise operator reads 32 bits of its operands and yields a
    signed number; `>>> 0` yields the unsigned number with the same bits.
  */
module Checksum {
  import opened Bits
  import opened Sequences
  import opened Utf8

  // ---- JavaScript's 32-bit operators ----

  const TWO_32 := 0x1_0000_0000

  /** The unsigned number with a number's low 32 bits: `>>> 0`. */
  function ToUint32(n: int): (u: nat)
    ensures u < TWO_32
  {
    n % TWO_32
  }

  /** The signed number with a number's low 32 bits. */
  function ToInt32(n: int): int
  {
    if ToUint32(n) < 0x8000_0000 then ToUint32(n) else ToUint32(n) - TWO_32
  }

  /** The exclusive or of the low `n` bits. */
  function XorBits(a: nat, b: nat, n: nat): nat
  {
    if n == 0 then 0 else XorBits(a / 2, b / 2, n - 1) * 2 + (a + b) % 2
  }

  /** `hash ^ byte` before its sign is read: a byte reaches eight bits only. */
  function Mixed(hash: nat, b: Byte): nat
  {
    hash / 0x100 * 0x100 + XorBits(hash % 0x100, b, 8)
  }

  function Xor(hash: nat, b: Byte): int { ToInt32(Mixed(hash, b)) }

  /** `Math.imul` */
  function Imul(a: int, b: int): int { ToInt32(a * b) }

  const FNV_BASIS := 0x811c9dc5
  const FNV_PRIME := 0x01000193

  /** Reading 32 bits as a signed number takes whole multiples of 2^32 away. */
  lemma LostBits(n: int) returns (lost: int)
    ensures ToInt32(n) == n - lost * TWO_32
  {
    lost := n / TWO_32 + if ToUint32(n) < 0x8000_0000 then 0 else 1;
  }

  // ---- hexadecimal ----

  const HEX_DIGITS := "0123456789abcdef"

  function LastDigit(v: nat): char { HEX_DIGITS[v % 0x10] }

  /** `toString(16)` of a number that is not negative: no leading zeros. */
  function ToHex(v: nat): (s: string)
    ensures s != []
  {
    if v < 0x10 then [LastDigit(v)] else ToHex(v / 0x10) + [LastDigit(v)]
  }

  function PadStart(s: string, width: nat): string
    decreases width - |s|
  {
    if |s| >= width then s else PadStart(['0'] + s, width)
  }

  function Hex8(hash: nat): string { PadStart(ToHex(hash), 8) }

  // ---- the checksum ----

  function Step(hash: nat, b: Byte): (next: nat)
    ensures next < TWO_32
  {
    ToUint32(Imul(Xor(hash, b), FNV_PRIME))
  }

  /** FNV-1a as its definition has it: fold the bytes, starting at the basis. */
  function Fnv(bytes: seq<Byte>): (hash: nat)
    ensures hash < TWO_32
  {
    if bytes == [] then FNV_BASIS else Step(Fnv(bytes[..|bytes| - 1]), bytes[|bytes| - 1])
  }

  lemma FnvStep(bytes: seq<Byte>, b: Byte)
    ensures Fnv(bytes + [b]) == Step(Fnv(bytes), b)
  {
    assert (bytes + [b])[..|bytes|] == bytes;
  }

  /** The checksum over buffers: nested loops with one running hash. */
  method Fnv1a(buffers: seq<seq<Byte>>) returns (hex: string)
    ensures hex == Hex8(Fnv(Flatten(buffers)))
  {
    var hash := FNV_BASIS;
    ghost var seen: seq<Byte> := [];
    for n := 0 to |buffers|
      invariant seen == Flatten(buffers[..n]) && hash == Fnv(seen)
    {
      var buffer := buffers[n];
      ghost var before := seen;
      for i := 0 to |buffer|
        invariant seen == before + buffer[..i] && hash == Fnv(seen)
      {
        FnvStep(seen, buffer[i]);
        TakeOneMore(before, buffer, i);
        seen := seen + [buffer[i]];
        hash := ToUint32(Imul(Xor(hash, buffer[i]), FNV_PRIME));
      }
      FlattenBack(buffers, n);
    }
    assert buffers[..|buffers|] == buffers;
    hex := Hex8(hash);
  }

  function LowByte(u: Unit): Byte { u % 0x100 }

  function LowBytes(text: seq<Unit>): (bytes: seq<Byte>)
    ensures |bytes| == |text|
  {
    seq(|text|, i requires 0 <= i < |text| => LowByte(text[i]))
  }

  /** A text's low bytes are its UTF-8 exactly if it is all ASCII. */
  lemma {:induction false} LowBytesAreUtf8(text: seq<Unit>)
    ensures LowBytes(text) == Encode(text) <==> forall i :: 0 <= i < |text| ==> text[i] < 0x80
  {
    if text != [] {
      var n := HeadUnits(text);
      var rest := text[n..];
      EncodedIsLonger(rest);
      if text[0] < 0x80 {
        LowBytesAreUtf8(rest);
        assert forall i :: 0 <= i < |rest| ==> rest[i] == text[i + 1];
        assert LowBytes(text) == [text[0]] + LowBytes(rest);
        Cancel([text[0]], LowBytes(rest), Encode(rest));
      } else {
        assert |Encode(text)| > |text|;
      }
    }
  }

  lemma {:induction false} EncodedIsLonger(text: seq<Unit>)
    ensures |Encode(text)| >= |text|
  {
    if text != [] {
      EncodedIsLonger(text[HeadUnits(text)..]);
    }
  }

  /** The fold-watch's copy, which updates the hash in two statements and so
      holds a signed number, perhaps a negative one, between them. */
  method Fingerprint(text: seq<Unit>) returns (hex: string)
    ensures hex == Hex8(Fnv(LowBytes(text)))
    ensures |LowBytes(text)| == |text| && forall i :: 0 <= i < |text| ==> LowBytes(text)[i] == text[i] % 0x100
  {
    var hash: int := FNV_BASIS;
    ghost var seen: seq<Byte> := [];
    for i := 0 to |text|
      invariant seen == LowBytes(text)[..i] && hash == Fnv(seen)
    {
      FnvStep(seen, LowByte(text[i]));
      seen := seen + [LowByte(text[i])];
      hash := Xor(hash as nat, LowByte(text[i]));
      hash := ToUint32(Imul(hash, FNV_PRIME));
    }
    assert LowBytes(text)[..|text|] == LowBytes(text);
    hex := Hex8(hash);
  }

  // ---- chunks ----

  function Chunks<T>(bytes: seq<T>, size: nat): seq<seq<T>>
    requires size > 0
  {
    if bytes == [] then []
    else if |bytes| <= size then [bytes]
    else [bytes[..size]] + Chunks(bytes[size..], size)
  }

  /** The cutting loop; `slice` stops at the end of the bytes. */
  method Cut<T>(bytes: seq<T>, size: nat) returns (out: seq<seq<T>>)
    requires size > 0
    ensures out == Chunks(bytes, size)
  {
    out := [];
    var at := 0;
    while at < |bytes|
      invariant 0 <= at
      invariant out + Chunks(bytes[if at < |bytes| then at else |bytes|..], size) == Chunks(bytes, size)
    {
      var end := if at + size < |bytes| then at + size else |bytes|;
      assert bytes[at..][..end - at] == bytes[at..end] && bytes[at..][end - at..] == bytes[end..];
      assert end == |bytes| ==> bytes[at..] == bytes[at..end] && Chunks(bytes[end..], size) == [];
      out := out + [bytes[at..end]];
      at := at + size;
    }
  }

  /** Cutting loses nothing: the buffers, end to end, are the bytes, and only
      the last can be short. */
  lemma {:induction false} ChunksFlatten<T>(bytes: seq<T>, size: nat)
    requires size > 0
    ensures Flatten(Chunks(bytes, size)) == bytes
    ensures forall i :: 0 <= i < |Chunks(bytes, size)| - 1 ==> |Chunks(bytes, size)[i]| == size
    ensures forall i :: 0 <= i < |Chunks(bytes, size)| ==> 0 < |Chunks(bytes, size)[i]| <= size
  {
    if |bytes| > size {
      ChunksFlatten(bytes[size..], size);
      FlattenFront(bytes[..size], Chunks(bytes[size..], size));
    } else if bytes != [] {
      assert Flatten([bytes]) == Flatten([bytes][..0]) + bytes;
    }
  }

  /** So the checksum does not depend on how its bytes were cut. */
  lemma ChecksumOfChunks(bytes: seq<Byte>, size: nat)
    requires size > 0
    ensures Fnv(Flatten(Chunks(bytes, size))) == Fnv(Flatten([bytes]))
  {
    ChunksFlatten(bytes, size);
    FlattenFront(bytes, []);
    assert [bytes] + [] == [bytes] && bytes + [] == bytes;
  }

  // ---- what is computed ----

  /** Each bit of the exclusive or says whether just one of the two is set. */
  lemma {:induction false} XorBit(a: nat, b: nat, n: nat, k: nat)
    ensures Bit(XorBits(a, b, n), k) == if k < n then (Bit(a, k) + Bit(b, k)) % 2 else 0
    decreases n
  {
    if n == 0 {
      ZeroBit(k);
    } else {
      LastBit(XorBits(a / 2, b / 2, n - 1), a, b);
      if k > 0 {
        XorBit(a / 2, b / 2, n - 1, k - 1);
      }
    }
  }

  lemma LastBit(x: nat, a: nat, b: nat)
    ensures (x * 2 + (a + b) % 2) / 2 == x
    ensures (x * 2 + (a + b) % 2) % 2 == (a % 2 + b % 2) % 2
  {}

  lemma MixedBit(hash: nat, b: Byte, k: nat)
    requires hash < TWO_32
    ensures Bit(Mixed(hash, b), k) == (Bit(hash, k) + Bit(b, k)) % 2
  {
    var low, h := hash % 0x100, hash / 0x100;
    SmallPowers();
    MixedBound(hash, b);
    JoinBits(h, XorBits(low, b, 8), 8, k);
    JoinBits(h, low, 8, k);
    JoinBits(0, b, 8, k);
    XorBit(low, b, 8, k);
    if k >= 8 {
      ZeroBit(k - 8);
      BitIsBinary(h, k - 8);
    }
  }

  /** One step: each bit of the hash and the byte exclusively, and the product with
      the prime modulo 2^32. */
  lemma StepMeans(hash: nat, b: Byte)
    requires hash < TWO_32
    ensures forall k: nat :: Bit(Mixed(hash, b), k) == (Bit(hash, k) + Bit(b, k)) % 2
    ensures Step(hash, b) == Mixed(hash, b) * 0x01000193 % 0x1_0000_0000
  {
    StepForm(hash, b);
    forall k: nat { MixedBit(hash, b, k); }
  }

  lemma {:induction false} XorZero(a: nat, n: nat)
    requires a < Pow2(n)
    ensures XorBits(a, 0, n) == a
  {
    if n > 0 {
      XorZero(a / 2, n - 1);
    }
  }

  /** A zero byte leaves only the multiplication. */
  lemma StepZero(hash: nat)
    requires hash < TWO_32
    ensures Step(hash, 0) == ToUint32(hash * FNV_PRIME)
  {
    SmallPowers();
    XorZero(hash % 0x100, 8);
    StepForm(hash, 0);
  }

  lemma FirstStep(b: Byte)
    ensures Fnv([b]) == Step(Fnv([]), b)
  {
    FnvStep([], b);
    assert [] + [b] == [b];
  }

  lemma Remainder(n: nat, q: nat, r: nat)
    requires n == q * TWO_32 + r && r < TWO_32
    ensures ToUint32(n) == r
  {}

  /** The hash of nothing is the basis, and that of one zero byte the basis times
      the prime. */
  lemma FnvExamples(zero: Byte)
    requires zero == 0
    ensures Fnv([]) == 0x811c9dc5 && Fnv([zero]) == 0x050c5d1f
  {
    FirstStep(zero);
    StepZero(Fnv([]));
    Remainder(0x811c9dc5 * 0x01000193, 8461673, 0x050c5d1f);
  }

  // ---- what a checksum tells apart ----

  lemma {:induction false} XorBitsBound(a: nat, b: nat, n: nat)
    ensures XorBits(a, b, n) < Pow2(n) && XorBits(a, b, n) == XorBits(b, a, n)
  {
    if n > 0 {
      XorBitsBound(a / 2, b / 2, n - 1);
    }
  }

  lemma SameParity(a: nat, c: nat, d: nat)
    requires (c + a) % 2 == (d + a) % 2 && c / 2 == d / 2
    ensures c == d
  {}

  lemma {:induction false} XorBitsInjective(c: nat, d: nat, a: nat, n: nat)
    requires c < Pow2(n) && d < Pow2(n)
    requires XorBits(c, a, n) == XorBits(d, a, n)
    ensures c == d
  {
    if n > 0 {
      XorBitsInjective(c / 2, d / 2, a / 2, n - 1);
      SameParity(a, c, d);
    }
  }

  lemma MixedBound(hash: nat, b: Byte)
    requires hash < TWO_32
    ensures Mixed(hash, b) < TWO_32 && XorBits(hash % 0x100, b, 8) < 0x100 == Pow2(8)
  {
    XorBitsBound(hash % 0x100, b, 8);
    SmallPowers();
  }

  lemma MixedInjective(x: nat, y: nat, a: Byte, b: Byte)
    requires x < TWO_32 && y < TWO_32 && Mixed(x, a) == Mixed(y, b)
    ensures a == b ==> x == y
    ensures x == y ==> a == b
  {
    var p, q := XorBits(x % 0x100, a, 8), XorBits(y % 0x100, b, 8);
    MixedBound(x, a);
    MixedBound(y, b);
    Parts(x / 0x100, p, y / 0x100, q);
    if a == b {
      XorBitsInjective(x % 0x100, y % 0x100, a, 8);
    } else if x == y {
      XorBitsBound(x % 0x100, a, 8);
      XorBitsBound(x % 0x100, b, 8);
      XorBitsInjective(a, b, x % 0x100, 8);
    }
  }

  lemma Parts(h: nat, l: nat, k: nat, m: nat)
    requires l < 0x100 && m < 0x100 && h * 0x100 + l == k * 0x100 + m
    ensures h == k && l == m
  {}

  /** The prime is odd, so multiplying by it modulo 2^32 can be undone: its
      inverse is 0x359c449b. */
  lemma OddFactor(x: nat, y: nat)
    requires x < TWO_32 && y < TWO_32
    requires ToUint32(x * FNV_PRIME) == ToUint32(y * FNV_PRIME)
    ensures x == y
  {
    var m := x * FNV_PRIME / TWO_32 - y * FNV_PRIME / TWO_32;
    assert (x - y) * FNV_PRIME == m * TWO_32;
    assert x - y == (m * 0x359c449b - 3513497 * (x - y)) * TWO_32;
  }

  lemma SameLowBits(n: int, k: int)
    ensures ToUint32(n - k * TWO_32) == ToUint32(n)
  {}

  /** Only the low 32 bits of a factor matter, signed or not. */
  lemma ImulLowBits(u: nat)
    requires u < TWO_32
    ensures ToUint32(Imul(ToInt32(u), FNV_PRIME)) == ToUint32(u * FNV_PRIME)
  {
    var k := LostBits(u);
    var product := ToInt32(u) * FNV_PRIME;
    SameLowBits(u * FNV_PRIME, k * FNV_PRIME);
    var j := LostBits(product);
    SameLowBits(product, j);
  }

  lemma StepForm(hash: nat, b: Byte)
    requires hash < TWO_32
    ensures Step(hash, b) == ToUint32(Mixed(hash, b) * FNV_PRIME)
  {
    MixedBound(hash, b);
    ImulLowBits(Mixed(hash, b));
  }

  /** One step is a bijection of the hash for each byte. */
  lemma StepKeepsHashes(x: nat, y: nat, b: Byte)
    requires x < TWO_32 && y < TWO_32 && Step(x, b) == Step(y, b)
    ensures x == y
  {
    StepForm(x, b);
    StepForm(y, b);
    MixedBound(x, b);
    MixedBound(y, b);
    OddFactor(Mixed(x, b), Mixed(y, b));
    MixedInjective(x, y, b, b);
  }

  /** And for each hash it tells bytes apart. */
  lemma StepKeepsBytes(hash: nat, a: Byte, b: Byte)
    requires hash < TWO_32 && Step(hash, a) == Step(hash, b)
    ensures a == b
  {
    StepForm(hash, a);
    StepForm(hash, b);
    MixedBound(hash, a);
    MixedBound(hash, b);
    OddFactor(Mixed(hash, a), Mixed(hash, b));
    MixedInjective(hash, hash, a, b);
  }

  /** Two byte strings of one length that differ at exactly one position have
      different hashes. */
  lemma {:induction false} OneByteChange(x: seq<Byte>, y: seq<Byte>, at: nat)
    requires |x| == |y| && at < |x| && x[at] != y[at]
    requires forall i :: 0 <= i < |x| && i != at ==> x[i] == y[i]
    ensures Fnv(x) != Fnv(y)
  {
    var n := |x| - 1;
    var hx, hy := Fnv(x[..n]), Fnv(y[..n]);
    if Fnv(x) == Fnv(y) {
      if at == n {
        assert x[..n] == y[..n];
        StepKeepsBytes(hx, x[n], y[n]);
      } else {
        OneByteChange(x[..n], y[..n], at);
        StepKeepsHashes(hx, hy, x[n]);
      }
    }
  }

  // ---- the printed form loses nothing ----

  /** The last `n` hexadecimal digits of a number. */
  function Digits(v: nat, n: nat): (s: string)
    ensures |s| == n
  {
    if n == 0 then [] else Digits(v / 0x10, n - 1) + [LastDigit(v)]
  }

  predicate Fits(v: nat, n: nat)
  {
    if n == 0 then v == 0 else Fits(v / 0x10, n - 1)
  }

  lemma FitsEight(v: nat)
    requires v < TWO_32
    ensures Fits(v, 8)
  {
    var q := v / 0x10 / 0x10;
    assert Fits(q / 0x10 / 0x10, 4) by {
      var r := q / 0x10 / 0x10 / 0x10 / 0x10;
      assert r < 0x100 && Fits(r, 2);
    }
    assert Fits(q, 6);
  }

  lemma {:induction false} PadStartPrefix(s: string, t: string, width: nat)
    requires |s| <= width
    ensures PadStart(s + t, width + |t|) == PadStart(s, width) + t
    decreases width - |s|
  {
    if |s| < width {
      assert ['0'] + (s + t) == (['0'] + s) + t;
      PadStartPrefix(['0'] + s, t, width);
    }
  }

  lemma {:induction false} ZeroDigits(n: nat)
    requires n > 0
    ensures PadStart(['0'], n) == Digits(0, n)
  {
    if n > 1 {
      ZeroDigits(n - 1);
      PadStartPrefix(['0'], ['0'], n - 1);
      assert PadStart(['0'], n) == PadStart(['0'] + ['0'], n);
    }
  }

  /** `toString(16).padStart(n, '0')` is exactly the last `n` digits of a number
      that fits in `n`. */
  lemma {:induction false} PaddedHex(v: nat, n: nat)
    requires n > 0 && Fits(v, n)
    ensures PadStart(ToHex(v), n) == Digits(v, n) && |ToHex(v)| <= n
    decreases n
  {
    var last := [LastDigit(v)];
    if v < 0x10 {
      if n > 1 {
        ZeroDigits(n - 1);
        PadStartPrefix(['0'], last, n - 1);
      }
    } else {
      PaddedHex(v / 0x10, n - 1);
      PadStartPrefix(ToHex(v / 0x10), last, n - 1);
    }
  }

  lemma HexDigitsDistinct(a: nat, b: nat)
    requires a < 0x10 && b < 0x10 && HEX_DIGITS[a] == HEX_DIGITS[b]
    ensures a == b
  {}

  lemma {:induction false} DigitsInjective(x: nat, y: nat, n: nat)
    requires Fits(x, n) && Fits(y, n) && Digits(x, n) == Digits(y, n)
    ensures x == y
  {
    if n > 0 {
      var fx, fy := Digits(x / 0x10, n - 1), Digits(y / 0x10, n - 1);
      assert fx == Digits(x, n)[..n - 1] && fy == Digits(y, n)[..n - 1];
      assert LastDigit(x) == Digits(x, n)[n - 1];
      DigitsInjective(x / 0x10, y / 0x10, n - 1);
      HexDigitsDistinct(x % 0x10, y % 0x10);
    }
  }

  /** The value of a hexadecimal digit, small letters only. */
  function DigitValue(c: char): int
  {
    if '0' <= c <= '9' then c as int - '0' as int else if 'a' <= c <= 'f' then 10 + c as int - 'a' as int else -1
  }

  function ParseHex(s: string): int
  {
    if s == [] then 0 else ParseHex(s[..|s| - 1]) * 0x10 + DigitValue(s[|s| - 1])
  }

  lemma DigitReadsBack(d: nat)
    requires d < 0x10
    ensures DigitValue(HEX_DIGITS[d]) == d
  {}

  lemma {:induction false} DigitsReadBack(v: nat, n: nat)
    requires Fits(v, n)
    ensures ParseHex(Digits(v, n)) == v
  {
    if n > 0 {
      DigitsReadBack(v / 0x10, n - 1);
      DigitReadsBack(v % 0x10);
      assert Digits(v, n)[..n - 1] == Digits(v / 0x10, n - 1);
    }
  }

  /** The eight characters printed are the hash's hexadecimal digits. */
  lemma HexReadsBack(v: nat)
    requires v < TWO_32
    ensures |Hex8(v)| == 8 && ParseHex(Hex8(v)) == v
  {
    FitsEight(v);
    PaddedHex(v, 8);
    DigitsReadBack(v, 8);
  }

  /** Eight digits print a 32-bit hash without loss. */
  lemma HexInjective(x: nat, y: nat)
    requires x < TWO_32 && y < TWO_32
    ensures |Hex8(x)| == 8
    ensures Hex8(x) == Hex8(y) <==> x == y
  {
    FitsEight(x);
    FitsEight(y);
    PaddedHex(x, 8);
    PaddedHex(y, 8);
    if Hex8(x) == Hex8(y) {
      DigitsInjective(x, y, 8);
    }
  }

  /** The printed checksum shows every change of a single byte. */
  lemma ByteChangeShows(x: seq<Byte>, y: seq<Byte>, at: nat)
    requires |x| == |y| && at < |x| && x[at] != y[at]
    requires forall i :: 0 <= i < |x| && i != at ==> x[i] == y[i]
    ensures Hex8(Fnv(x)) != Hex8(Fnv(y))
  {
    OneByteChange(x, y, at);
    HexInjective(Fnv(x), Fnv(y));
  }
}
