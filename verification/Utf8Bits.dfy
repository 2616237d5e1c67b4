/** What the decoder reads off any bytes, bit by bit: RFC 3629 section 3 puts the
    bits of a code point into the free bits of its bytes, and the decoder takes
    them from there whether or not the bytes are a character.
  */
module Utf8Bits {
  import opened Bits
  import opened Utf8

  /** How many bits of a first byte are free, by the ones it opens with. */
  function FreeBits(first: Byte): nat
  {
    if Bit(first, 7) == 0 then 7
    else if Bit(first, 6) == 1 && Bit(first, 5) == 0 then 5
    else if Bit(first, 6) == 1 && Bit(first, 5) == 1 && Bit(first, 4) == 0 then 4
    else 3
  }

  lemma TopBits(first: Byte)
    ensures Bit(first, 7) == first / 128 % 2 && Bit(first, 6) == first / 64 % 2
    ensures Bit(first, 5) == first / 32 % 2 && Bit(first, 4) == first / 16 % 2
  {
    var n := first / 16;
    ShiftBits(first, 0);
    ShiftBits(first, 1);
    ShiftBits(first, 2);
    ShiftBits(first, 3);
    ShiftByTwo(n, 0);
    ShiftByTwo(n, 1);
    Halves(first);
  }

  lemma Halves(first: Byte)
    ensures first / 16 / 2 == first / 32 && first / 16 / 4 == first / 64 && first / 16 / 4 / 2 == first / 128
  {}

  /** The width a first byte announces, and how many of its bits are taken. */
  lemma LeadMeans(first: Byte)
    ensures FreeBits(first) == 7 ==> LeadWidth(first) == 1 && LeadBits(first) == first % 128
    ensures FreeBits(first) == 5 ==> LeadWidth(first) == 2 && LeadBits(first) == first % 32
    ensures FreeBits(first) == 4 ==> LeadWidth(first) == 3 && LeadBits(first) == first % 16
    ensures FreeBits(first) == 3 ==> LeadWidth(first) == 4 && LeadBits(first) == first % 8
  {
    TopBits(first);
  }

  lemma LowPart(high: nat, low: nat, width: nat, k: nat)
    requires low < Pow2(width)
    ensures Bit(low, k) == if k < width then Bit(high * Pow2(width) + low, k) else 0
  {
    JoinBits(high, low, width, k);
    JoinBits(0, low, width, k);
    if k >= width {
      ZeroBit(k - width);
    }
  }

  /** Masking keeps the low bits and clears the rest. */
  lemma MaskedBit(n: nat, high: nat, low: nat, width: nat, k: nat)
    requires n == high * Pow2(width) + low && low < Pow2(width)
    ensures Bit(low, k) == if k < width then Bit(n, k) else 0
  {
    LowPart(high, low, width, k);
  }

  lemma MorePowers()
    ensures Pow2(3) == 8 && Pow2(4) == 16 && Pow2(5) == 32 && Pow2(6) == 64 && Pow2(7) == 128
  {
    assert Pow2(3) == 8;
    assert Pow2(5) == 2 * Pow2(4) && Pow2(7) == 2 * Pow2(6);
    SmallPowers();
  }

  lemma LeadBit(first: Byte, k: nat)
    ensures Bit(LeadBits(first), k) == if k < FreeBits(first) then Bit(first, k) else 0
  {
    LeadMeans(first);
    MorePowers();
    MaskedBit(first, first / 128, first % 128, 7, k);
    MaskedBit(first, first / 32, first % 32, 5, k);
    MaskedBit(first, first / 16, first % 16, 4, k);
    MaskedBit(first, first / 8, first % 8, 3, k);
  }

  lemma AbsorbedBit(code: nat, b: Byte, k: nat)
    ensures Bit(Absorb(code, b), k) == if k < 6 then Bit(b, k) else Bit(code, k - 6)
  {
    SmallPowers();
    JoinBits(code, b % 0x40, 6, k);
    MaskedBit(b, b / 0x40, b % 0x40, 6, k);
  }

  /** Bit `k` of the code point read off `n` bytes, from the right: six bits of each
      byte from the last one back to the second, and then the first one's. */
  function PayloadBit(bytes: seq<Byte>, n: nat, k: nat): nat
    requires 1 <= n <= |bytes|
  {
    if k < 6 * (n - 1) then Bit(bytes[n - 1 - k / 6], k % 6)
    else if k - 6 * (n - 1) < FreeBits(bytes[0]) then Bit(bytes[0], k - 6 * (n - 1))
    else 0
  }

  lemma SixLess(k: nat)
    requires k >= 6
    ensures (k - 6) / 6 == k / 6 - 1 && (k - 6) % 6 == k % 6
  {}

  lemma PayloadStep(bytes: seq<Byte>, n: nat, k: nat)
    requires 1 < n <= |bytes|
    ensures PayloadBit(bytes, n, k) == if k < 6 then Bit(bytes[n - 1], k) else PayloadBit(bytes, n - 1, k - 6)
  {
    if k >= 6 {
      SixLess(k);
    }
  }

  lemma {:induction false} AbsorbedBits(bytes: seq<Byte>, n: nat, k: nat)
    requires 1 <= n <= |bytes|
    ensures Bit(Absorbed(bytes, n), k) == PayloadBit(bytes, n, k)
    decreases n
  {
    if n == 1 {
      LeadBit(bytes[0], k);
    } else {
      AbsorbedBit(Absorbed(bytes, n - 1), bytes[n - 1], k);
      PayloadStep(bytes, n, k);
      if k >= 6 {
        AbsorbedBits(bytes, n - 1, k - 6);
      }
    }
  }

  /** What the decoder makes of any bytes: the first byte's leading ones say how
      many it takes, as far as there are so many, and the code point is their free
      bits end to end. */
  lemma ReadsFreeBits(bytes: seq<Byte>)
    requires bytes != []
    ensures var width := if FreeBits(bytes[0]) == 7 then 1 else 7 - FreeBits(bytes[0]);
      HeadBytes(bytes) == if width <= |bytes| then width else |bytes|
    ensures forall k: nat :: Bit(ReadCode(bytes), k) == PayloadBit(bytes, HeadBytes(bytes), k)
  {
    LeadMeans(bytes[0]);
    forall k: nat { AbsorbedBits(bytes, HeadBytes(bytes), k); }
  }

  /** A code point past 16 bits becomes two units, whatever it is: those it is put
      together from again, the second of them a low surrogate. */
  lemma UnitsJoin(code: Code)
    ensures var units := UnitsOf(code);
      if code <= 0xffff then units == [code]
      else
        && |units| == 2 && Low(units[1])
        && var high: int, low: int := units[0], units[1]; code == 0x10000 + (high - 0xd800) * 0x400 + (low - 0xdc00)
  {}
}
