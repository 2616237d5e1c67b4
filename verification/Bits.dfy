/** Binary digits of natural numbers: what shifts and masks do to them. */
module Bits {

  function Pow2(n: nat): (p: nat)
    ensures p > 0
  {
    if n == 0 then 1 else 2 * Pow2(n - 1)
  }

  /** Bit `k`, counted from the right. */
  function Bit(n: nat, k: nat): nat
  {
    if k == 0 then n % 2 else Bit(n / 2, k - 1)
  }

  lemma {:induction false} BitIsBinary(n: nat, k: nat)
    ensures Bit(n, k) < 2
  {
    if k > 0 {
      BitIsBinary(n / 2, k - 1);
    }
  }

  lemma {:induction false} ZeroBit(k: nat)
    ensures Bit(0, k) == 0
  {
    if k > 0 {
      ZeroBit(k - 1);
    }
  }

  /** The number whose bits, the most significant first, are `bits`. */
  function Gather(bits: seq<nat>): nat
  {
    if bits == [] then 0 else Gather(bits[..|bits| - 1]) * 2 + bits[|bits| - 1]
  }

  lemma {:induction false} GatherBits(bits: seq<nat>, k: nat)
    requires (forall i :: 0 <= i < |bits| ==> bits[i] < 2) && k < |bits|
    ensures Gather(bits) < Pow2(|bits|)
    ensures Bit(Gather(bits), |bits| - 1 - k) == bits[k]
  {
    var front := bits[..|bits| - 1];
    if k < |front| {
      GatherBits(front, k);
    } else if front != [] {
      GatherBits(front, 0);
    }
  }

  lemma HalfOfJoin(high: nat, p: nat, low: nat)
    ensures (high * (2 * p) + low) / 2 == high * p + low / 2
    ensures (high * (2 * p) + low) % 2 == low % 2
  {
    assert high * (2 * p) == 2 * (high * p);
  }

  /** The bits of two numbers written side by side. */
  lemma {:induction false} JoinBits(high: nat, low: nat, width: nat, k: nat)
    requires low < Pow2(width)
    ensures Bit(high * Pow2(width) + low, k) == if k < width then Bit(low, k) else Bit(high, k - width)
    decreases width
  {
    if width > 0 {
      HalfOfJoin(high, Pow2(width - 1), low);
      if k > 0 {
        JoinBits(high, low / 2, width - 1, k - 1);
      }
    }
  }

  /** Shifts by two and by four renumber the bits. */
  lemma ShiftBits(n: nat, k: nat)
    ensures Bit(n / 4, k) == Bit(n, k + 2)
    ensures Bit(n / 16, k) == Bit(n, k + 4)
  {
    ShiftByTwo(n, k);
    ShiftByTwo(n / 4, k);
    ShiftByTwo(n, k + 2);
    assert n / 16 == n / 4 / 4;
  }

  lemma ShiftByTwo(n: nat, k: nat)
    ensures Bit(n / 4, k) == Bit(n, k + 2)
  {
    assert n / 4 == n / 2 / 2;
    assert Bit(n, k + 2) == Bit(n / 2, k + 1) == Bit(n / 2 / 2, k);
  }

  /** A byte mask keeps the low eight bits. */
  lemma MaskBits(n: nat, k: nat)
    requires k < 8
    ensures Bit(n % 256, k) == Bit(n, k)
  {
    SmallPowers();
    JoinBits(n / 256, n % 256, 8, k);
  }

  /** A number is its bits. */
  lemma {:induction false} SameBits(a: nat, b: nat, width: nat)
    requires a < Pow2(width) && b < Pow2(width)
    requires forall k: nat :: k < width ==> Bit(a, k) == Bit(b, k)
    ensures a == b
  {
    if width > 0 {
      forall k: nat | k < width - 1 ensures Bit(a / 2, k) == Bit(b / 2, k) {
        assert Bit(a, k + 1) == Bit(b, k + 1);
      }
      SameBits(a / 2, b / 2, width - 1);
      assert Bit(a, 0) == Bit(b, 0);
    }
  }

  lemma SmallPowers()
    ensures Pow2(0) == 1 && Pow2(2) == 4 && Pow2(4) == 16 && Pow2(6) == 64 && Pow2(8) == 256
  {
    assert Pow2(2) == 4;
    assert Pow2(4) == 4 * Pow2(2);
    assert Pow2(6) == 4 * Pow2(4);
  }
}
