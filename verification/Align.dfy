/** Alignment of addresses and sizes to powers of two.

    The functions are written with the masks the library uses, on integers of any size.
    `LowerMask`, `UpperMask` and `SameFrameMask` show that on a machine word the library's own
    expressions, with their complements and their wrap-around, compute them; the lemmas of the first
    section say what they mean. */
module Align {
  import opened DivMod
  import opened Bits

  predicate Aligned(x: nat, a: nat)
    requires a > 0
  {
    And(x, a - 1) == 0
  }

  function LowerAlign(x: nat, a: nat): nat
    requires a > 0
  {
    x - And(x, a - 1)
  }

  function UpperAlign(x: nat, a: nat): nat
    requires a > 0
  {
    LowerAlign(x + (a - 1), a)
  }

  /** `LowerAlign` for a block whose byte at `offset` has to be aligned. */
  function LowerAlignAt(x: nat, a: nat, offset: nat): int
    requires a > 0
  {
    LowerAlign(x + offset, a) - offset
  }

  function UpperAlignAt(x: nat, a: nat, offset: nat): int
    requires a > 0
  {
    UpperAlign(x + offset, a) - offset
  }

  /** Both addresses lie in the same frame of `a` bytes. */
  predicate SameFrame(x: nat, y: nat, a: nat)
    requires a > 0
  {
    LowerAlign(x, a) == LowerAlign(y, a)
  }

  // ---- what the functions compute ---------------------------------------------------------------

  lemma AlignedMod(x: nat, a: nat)
    requires IsPow2(a)
    ensures a > 0 && And(x, a - 1) == x % a < a
  {
    var k: nat :| a == Pow2(k);
    LowMask(x, k);
    Split(x, a);
  }

  lemma AlignedSum(x: nat, y: nat, a: nat)
    requires IsPow2(a) && a > 0 && Aligned(x, a)
    ensures And(x + y, a - 1) == And(y, a - 1)
  {
    hide And;
    AlignedMod(x, a);
    AlignedMod(y, a);
    AlignedMod(x + y, a);
    AddMultiple(x, y, a);
  }

  lemma AlignedAdd(x: nat, y: nat, a: nat)
    requires IsPow2(a) && a > 0 && Aligned(x, a) && Aligned(y, a)
    ensures Aligned(x + y, a)
  {
    AlignedSum(x, y, a);
  }

  lemma AlignedMultiple(k: nat, a: nat)
    requires IsPow2(a) && a > 0
    ensures Aligned(a * k, a)
  {
    hide And;
    AlignedMod(a * k, a);
    MultipleMod(a, k);
  }

  lemma AlignedSelf(a: nat)
    requires IsPow2(a) && a > 0
    ensures Aligned(a, a) && Aligned(0, a)
  {
    AlignedMultiple(1, a);
  }

  lemma SmallRemainder(x: nat, a: nat)
    requires IsPow2(a) && x < a
    ensures And(x, a - 1) == x
  {
    hide And;
    AlignedMod(x, a);
    SmallMod(x, a);
  }

  /** Two different aligned addresses are at least the alignment apart. */
  lemma AlignedApart(x: nat, y: nat, a: nat)
    requires IsPow2(a) && a > 0 && Aligned(x, a) && Aligned(y, a) && x < y
    ensures x + a <= y
  {
    hide And;
    AlignedMod(x, a);
    AlignedMod(y, a);
    MultiplesApart(x, y, a);
  }

  /** `LowerAlign` is the greatest aligned address that is not above the given one. */
  lemma LowerAlignGreatest(x: nat, a: nat, m: nat)
    requires IsPow2(a) && a > 0
    ensures Aligned(LowerAlign(x, a), a) && LowerAlign(x, a) <= x < LowerAlign(x, a) + a
    ensures Aligned(m, a) && m <= x ==> m <= LowerAlign(x, a)
  {
    hide And;
    AlignedMod(x, a);
    DropRemainder(x, a);
    AlignedMod(LowerAlign(x, a), a);
    if Aligned(m, a) && LowerAlign(x, a) < m {
      AlignedApart(LowerAlign(x, a), m, a);
    }
  }

  /** `UpperAlign` is the smallest aligned address that is not below the given one. */
  lemma UpperAlignLeast(x: nat, a: nat, m: nat)
    requires IsPow2(a) && a > 0
    ensures Aligned(UpperAlign(x, a), a) && x <= UpperAlign(x, a) < x + a
    ensures Aligned(m, a) && x <= m ==> UpperAlign(x, a) <= m
  {
    hide And;
    LowerAlignGreatest(x + (a - 1), a, 0);
    if Aligned(m, a) && m < UpperAlign(x, a) {
      AlignedApart(m, UpperAlign(x, a), a);
    }
  }

  lemma AlignedUnchanged(x: nat, a: nat)
    requires IsPow2(a) && a > 0 && Aligned(x, a)
    ensures LowerAlign(x, a) == x && UpperAlign(x, a) == x
  {
    hide And;
    UpperAlignLeast(x, a, x);
  }

  /** The result of `LowerAlignAt` is the greatest one not above `x` whose byte at `offset` is aligned. */
  lemma LowerAlignAtGreatest(x: nat, a: nat, offset: nat, m: nat)
    requires IsPow2(a) && a > 0
    ensures LowerAlignAt(x, a, offset) <= x < LowerAlignAt(x, a, offset) + a
    ensures LowerAlignAt(x, a, offset) + offset >= 0
    ensures Aligned(LowerAlignAt(x, a, offset) + offset, a)
    ensures Aligned(m + offset, a) && m <= x ==> m <= LowerAlignAt(x, a, offset)
  {
    hide And;
    LowerAlignGreatest(x + offset, a, m + offset);
  }

  lemma UpperAlignAtLeast(x: nat, a: nat, offset: nat, m: nat)
    requires IsPow2(a) && a > 0
    ensures x <= UpperAlignAt(x, a, offset) < x + a
    ensures Aligned(UpperAlignAt(x, a, offset) + offset, a)
    ensures Aligned(m + offset, a) && x <= m ==> UpperAlignAt(x, a, offset) <= m
  {
    hide And;
    UpperAlignLeast(x + offset, a, m + offset);
  }

  /** The frame of an address is known from the aligned address less than `a` bytes below it. */
  lemma FrameOf(base: nat, x: nat, a: nat)
    requires IsPow2(a) && a > 0 && Aligned(base, a) && base <= x < base + a
    ensures LowerAlign(x, a) == base
  {
    hide And;
    AlignedSum(base, x - base, a);
    SmallRemainder(x - base, a);
  }

  /** Alignment to a power of two implies alignment to every smaller one. */
  lemma WeakerAlignment(x: nat, strong: nat, weak: nat)
    requires IsPow2(strong) && IsPow2(weak) && 0 < weak <= strong
    requires Aligned(x, strong)
    ensures Aligned(x, weak)
  {
    hide And;
    SmallerPow2Divides(weak, strong);
    AlignedMod(x, strong);
    AlignedMod(x, weak);
    ModThrough(x, strong, weak);
  }

  /** From an address that already has the weaker alignment, reaching the stronger one costs at most
      the difference of the two. */
  lemma UpperAlignCost(x: nat, strong: nat, weak: nat)
    requires IsPow2(strong) && IsPow2(weak) && 0 < weak <= strong
    requires Aligned(x, weak)
    ensures x <= UpperAlign(x, strong) <= x + (strong - weak)
    ensures Aligned(UpperAlign(x, strong), strong) && Aligned(UpperAlign(x, strong), weak)
  {
    hide And;
    UpperAlignLeast(x, strong, 0);
    var y := UpperAlign(x, strong);
    WeakerAlignment(y, strong, weak);
    AlignedSelf(strong);
    WeakerAlignment(strong, strong, weak);
    AlignedSum(strong, x, weak);
    AlignedApart(y, x + strong, weak);
  }

  // ---- the mask expressions ---------------------------------------------------------------------

  /** The library's power-of-two test on a word, with the wrap-around of `number - 1` at zero. */
  predicate IsPowerOf2(width: nat, number: nat)
    requires number < Pow2(width)
  {
    And(number, if number == 0 then Pow2(width) - 1 else number - 1) == 0
  }

  /** The test accepts the powers of two and zero, which the library excludes by precondition. */
  lemma PowerOf2Test(width: nat, number: nat)
    requires number < Pow2(width)
    ensures IsPowerOf2(width, number) <==> number == 0 || IsPow2(number)
  {
    if number > 0 {
      LowestBitCleared(number);
    }
  }

  lemma Pow2Fits(width: nat, a: nat) returns (k: nat)
    requires IsPow2(a) && a <= Pow2(width)
    ensures k <= width && a == Pow2(k)
  {
    k :| a == Pow2(k);
    if k > width {
      Pow2Mono(width + 1, k);
    }
  }

  /** Clearing the low bits of a word rounds it down. */
  lemma LowerMask(width: nat, x: nat, a: nat)
    requires IsPow2(a) && 0 < a <= Pow2(width) && x < Pow2(width)
    ensures And(x, Not(width, a - 1)) == LowerAlign(x, a)
  {
    hide And;
    var k := Pow2Fits(width, a);
    HighMask(width, x, k);
    AlignedMod(x, a);
  }

  /** Rounding a word up: the addition wraps around. */
  function UpperMaskExpression(width: nat, x: nat, a: nat): nat
    requires 0 < a <= Pow2(width)
  {
    And(And(x + (a - 1), Pow2(width) - 1), Not(width, a - 1))
  }

  /** Rounding up by masks is right exactly when the addition does not overflow; otherwise the
      result is zero, below the address. */
  lemma UpperMask(width: nat, x: nat, a: nat)
    requires IsPow2(a) && 0 < a <= Pow2(width) && x < Pow2(width)
    ensures UpperMaskExpression(width, x, a) == UpperAlign(x, a) <==> x + (a - 1) < Pow2(width)
    ensures x + (a - 1) >= Pow2(width) ==> UpperMaskExpression(width, x, a) == 0
  {
    hide And, Pow2;
    var w, y := Pow2(width), x + (a - 1);
    UpperAlignLeast(x, a, x);
    if y < w {
      SmallRemainder(y, w);
      LowerMask(width, y, a);
    } else {
      WrapOnce(width, y);
      LowerMask(width, y - w, a);
      SmallRemainder(y - w, a);
    }
  }

  lemma WrapOnce(width: nat, y: nat)
    requires Pow2(width) <= y < 2 * Pow2(width)
    ensures And(y, Pow2(width) - 1) == y - Pow2(width)
  {
    hide And;
    var w := Pow2(width);
    AlignedSelf(w);
    AlignedSum(w, y - w, w);
    SmallRemainder(y - w, w);
  }

  /** Comparing two addresses through the exclusive or of their high bits compares their frames. */
  lemma SameFrameMask(width: nat, x: nat, y: nat, a: nat)
    requires IsPow2(a) && 0 < a <= Pow2(width) && x < Pow2(width) && y < Pow2(width)
    ensures And(Xor(x, y), Not(width, a - 1)) == 0 <==> SameFrame(x, y, a)
  {
    var k: nat :| a == Pow2(k);
    var z := Xor(x, y);
    XorBound(x, y, width);
    LowerMask(width, z, a);
    XorBelow(x, y, k);
    LowerAlignZero(z, a);
    FrameQuotient(x, y, a);
  }

  lemma LowerAlignZero(z: nat, a: nat)
    requires IsPow2(a) && a > 0
    ensures LowerAlign(z, a) == 0 <==> z < a
  {
    hide And;
    AlignedSelf(a);
    LowerAlignGreatest(z, a, a);
    if z < a {
      SmallRemainder(z, a);
    }
  }

  lemma FrameQuotient(x: nat, y: nat, a: nat)
    requires IsPow2(a) && a > 0
    ensures SameFrame(x, y, a) <==> x / a == y / a
  {
    hide And;
    AlignedMod(x, a);
    AlignedMod(y, a);
    Split(x, a);
    Split(y, a);
    if SameFrame(x, y, a) {
      SplitUnique(a, x / a, 0, y / a, 0);
    }
  }

  /** Base-two logarithm, as the library computes it. */
  function SizeLog2(size: nat): nat {
    if size <= 1 then 0 else SizeLog2(size / 2) + 1
  }

  lemma {:induction false} SizeLog2Inverse(size: nat)
    requires IsPow2(size)
    ensures Pow2(SizeLog2(size)) == size
  {
    var k: nat :| size == Pow2(k);
    if k > 0 {
      assert size / 2 == Pow2(k - 1);
      SizeLog2Inverse(size / 2);
    }
  }
}
