/**
 * `reduceToDecimalFraction`: two 32-bit words become one integer numerator
 * `z` below 2^53 - 1, and the fraction is `z / (2^53 - 1)`.
 *
 * The numerator keeps the top `32 - DropBits` bits of the first word
 * (`x >>> DropBits`) and the top 31 bits of the second (`y >>> 1`).
 */
module Fraction {
  import opened Xorshift

  /** `Number.MAX_SAFE_INTEGER`, 2^53 - 1. */
  const MaxSafeInteger: nat := 0x1F_FFFF_FFFF_FFFF

  const SignificantBits: nat := 31

  /** `Math.floor(Math.log2(Number.MAX_SAFE_INTEGER))`: log2(2^53 - 1) lies
      within half an ulp of 53, so a correctly rounded log2 returns 53. */
  const FloorLog2MaxSafe: nat := 53

  /** The number of low bits of `x` that are discarded: 10. */
  const DropBits: nat := 1 + SignificantBits - (FloorLog2MaxSafe - SignificantBits)

  /** 2^DropBits, 2^(31 - DropBits) and 2^31. */
  const DropScale: nat := 0x400
  const GuardX: nat := 0x20_0000
  const HalfWord: nat := 0x8000_0000

  /** The largest value `x >>> DropBits` can take, 2^(32 - DropBits) - 1. */
  const MaxX1: nat := 0x3F_FFFF

  function Pow2(n: nat): (p: nat)
    ensures p >= 1
  {
    if n == 0 then 1 else 2 * Pow2(n - 1)
  }

  /** The constants are the powers of two the code computes with `**`. */
  lemma DropBitsConstants()
    ensures DropBits == 10 && 0 < DropBits < SignificantBits
    ensures DropScale == Pow2(DropBits) && GuardX == Pow2(SignificantBits - DropBits)
    ensures HalfWord == Pow2(SignificantBits) && MaxX1 == Pow2(32 - DropBits) - 1
    ensures MaxSafeInteger == Pow2(FloorLog2MaxSafe) - 1
  {
    assert Pow2(10) == 0x400;
    assert Pow2(11) == 0x800;
    assert Pow2(21) == 0x20_0000 by {
      Pow2Sum(10, 11);
    }
    assert Pow2(22) == 0x40_0000 by {
      Pow2Sum(11, 11);
    }
    assert Pow2(31) == 0x8000_0000 by {
      Pow2Sum(21, 10);
    }
    assert Pow2(53) == 0x20_0000_0000_0000 by {
      Pow2Sum(22, 31);
    }
  }

  lemma {:induction false} Pow2Sum(a: nat, b: nat)
    ensures Pow2(a + b) == Pow2(a) * Pow2(b)
    decreases b
  {
    if b > 0 {
      Pow2Sum(a, b - 1);
    }
  }

  /** `x >>> DropBits`: the unsigned value of `x` with its low bits dropped
      (an unsigned shift is a division by a power of two). */
  function HighPart(x: Word): (x1: nat)
    ensures x1 <= MaxX1
  {
    (x as int) / DropScale
  }

  /** `y >>> 1`: the unsigned value of `y` with its lowest bit dropped. */
  function LowPart(y: Word): (y1: nat)
    ensures y1 < HalfWord
  {
    (y as int) / 2
  }

  /** What the code as written does: the numerator, or the assertion at
      `assert(z < Number.MAX_SAFE_INTEGER)` firing. */
  datatype Written = Numerator(z: nat) | AssertionFails

  /** The reducer as written: its guard tests `x1 + 1 == 2^(31 - DropBits)`,
      which is not the largest `x1` can be once the unsigned shift keeps
      `32 - DropBits` bits. */
  function ReduceAsWritten(x: Word, y: Word): (r: Written)
    ensures r.AssertionFails? <==> HighPart(x) == MaxX1 && LowPart(y) == HalfWord - 1
    ensures r.Numerator? ==> r.z < MaxSafeInteger
    ensures r == Numerator(0) <==> (HighPart(x) == 0 && LowPart(y) == 0) ||
                                   (HighPart(x) == GuardX - 1 && LowPart(y) == HalfWord - 1)
  {
    CombineAsWritten(HighPart(x), LowPart(y))
  }

  function CombineAsWritten(x1: nat, y1: nat): (r: Written)
    requires x1 <= MaxX1 && y1 < HalfWord
    ensures r.AssertionFails? <==> x1 == MaxX1 && y1 == HalfWord - 1
    ensures r.Numerator? ==> r.z < MaxSafeInteger
    ensures r == Numerator(0) <==> (x1 == 0 && y1 == 0) || (x1 == GuardX - 1 && y1 == HalfWord - 1)
  {
    if x1 + 1 == GuardX && y1 + 1 == HalfWord then Numerator(0)
    else
      var z := x1 * HalfWord + y1;
      if z < MaxSafeInteger then Numerator(z) else AssertionFails
  }

  /** The pair of words that makes the written reducer fail. */
  lemma AsWrittenFailsOnAllOnes()
    ensures HighPart(0xFFFF_FFFF) == MaxX1 && LowPart(0xFFFF_FFFF) == HalfWord - 1
    ensures MaxX1 * HalfWord + (HalfWord - 1) == MaxSafeInteger
    ensures ReduceAsWritten(0xFFFF_FFFF, 0xFFFF_FFFF) == AssertionFails
  {
  }

  /** The reducer with the guard at the true maximum of both parts: the one
      input pair whose numerator would reach 2^53 - 1 yields 0 instead. */
  function Reduce(x: Word, y: Word): (z: nat)
    ensures z < MaxSafeInteger
    ensures z == 0 <==> (HighPart(x) == 0 && LowPart(y) == 0) ||
                        (HighPart(x) == MaxX1 && LowPart(y) == HalfWord - 1)
  {
    Combine(HighPart(x), LowPart(y))
  }

  function Combine(x1: nat, y1: nat): (z: nat)
    requires x1 <= MaxX1 && y1 < HalfWord
    ensures z < MaxSafeInteger
    ensures z == 0 <==> (x1 == 0 && y1 == 0) || (x1 == MaxX1 && y1 == HalfWord - 1)
  {
    if x1 == MaxX1 && y1 == HalfWord - 1 then 0 else x1 * HalfWord + y1
  }

  /** Outside the guarded pair the numerator keeps both parts intact: they
      can be read back from it, so no retained bit is lost. */
  lemma ReduceKeepsBothParts(x: Word, y: Word)
    requires !(HighPart(x) == MaxX1 && LowPart(y) == HalfWord - 1)
    ensures Reduce(x, y) / HalfWord == HighPart(x)
    ensures Reduce(x, y) % HalfWord == LowPart(y)
  {
  }

  /** The written and the corrected reducer agree except on the two pairs
      where the guard differs. */
  lemma AsWrittenAgreesElsewhere(x: Word, y: Word)
    requires LowPart(y) != HalfWord - 1 || (HighPart(x) != MaxX1 && HighPart(x) != GuardX - 1)
    ensures ReduceAsWritten(x, y) == Numerator(Reduce(x, y))
  {
  }

  /** Only `x >>> DropBits` and `y >>> 1` matter: the dropped low bits of
      either word never change the result. */
  lemma ReduceIgnoresDroppedBits(x: Word, y: Word, x': Word, y': Word)
    requires x as int - x as int % DropScale == x' as int - x' as int % DropScale
    requires y as int - y as int % 2 == y' as int - y' as int % 2
    ensures Reduce(x, y) == Reduce(x', y')
    ensures ReduceAsWritten(x, y) == ReduceAsWritten(x', y')
  {
    assert HighPart(x) == HighPart(x') by {
      SameQuotient(x as int, x' as int, DropScale);
    }
    assert LowPart(y) == LowPart(y') by {
      SameQuotient(y as int, y' as int, 2);
    }
  }

  lemma SameQuotient(a: nat, b: nat, k: nat)
    requires k > 0 && a - a % k == b - b % k
    ensures a / k == b / k
  {
    assert k * (a / k) == k * (b / k);
  }

  /** `z / Number.MAX_SAFE_INTEGER`, as an exact quotient. */
  function ToFraction(x: Word, y: Word): (v: real)
    ensures 0.0 <= v < 1.0
  {
    Reduce(x, y) as real / MaxSafeInteger as real
  }
}
