/** Bitwise operations on words, as the integers they denote.

    `And` and `Xor` work digit by digit; `AndIsBitwise` and `XorIsBitwise` show that they are the
    machine operations. `Not` is the complement inside a word of a given width. */
module Bits {
  import opened DivMod

  function Pow2(k: nat): (r: nat)
    ensures r > 0
  {
    if k == 0 then 1 else 2 * Pow2(k - 1)
  }

  ghost predicate IsPow2(n: nat) {
    exists k: nat :: n == Pow2(k)
  }

  predicate Bit(x: nat, i: nat) {
    if i == 0 then x % 2 == 1 else Bit(x / 2, i - 1)
  }

  function And(x: nat, y: nat): (r: nat)
    ensures r <= x && r <= y
  {
    if x == 0 || y == 0 then 0
    else 2 * And(x / 2, y / 2) + (if x % 2 == 1 && y % 2 == 1 then 1 else 0)
  }

  function Xor(x: nat, y: nat): nat
    decreases x + y
  {
    if x == 0 && y == 0 then 0
    else 2 * Xor(x / 2, y / 2) + (if x % 2 == y % 2 then 0 else 1)
  }

  function Or(x: nat, y: nat): nat {
    x + y - And(x, y)
  }

  /** The complement of `x` in a word of `width` bits. */
  function Not(width: nat, x: nat): nat
    requires x < Pow2(width)
  {
    Pow2(width) - 1 - x
  }

  lemma {:induction false} ZeroHasNoBits(i: nat)
    ensures !Bit(0, i)
  {
    if i > 0 {
      ZeroHasNoBits(i - 1);
    }
  }

  lemma {:induction false} AndIsBitwise(x: nat, y: nat, i: nat)
    ensures Bit(And(x, y), i) <==> Bit(x, i) && Bit(y, i)
    decreases i
  {
    ZeroHasNoBits(i);
    if x != 0 && y != 0 && i > 0 {
      assert And(x, y) / 2 == And(x / 2, y / 2);
      AndIsBitwise(x / 2, y / 2, i - 1);
    }
  }

  lemma {:induction false} XorIsBitwise(x: nat, y: nat, i: nat)
    ensures Bit(Xor(x, y), i) <==> Bit(x, i) != Bit(y, i)
    decreases i
  {
    if x == 0 && y == 0 {
      ZeroHasNoBits(i);
    } else if i > 0 {
      assert Xor(x, y) / 2 == Xor(x / 2, y / 2);
      XorIsBitwise(x / 2, y / 2, i - 1);
    }
  }

  lemma {:induction false} OrIsBitwise(x: nat, y: nat, i: nat)
    ensures Bit(Or(x, y), i) <==> Bit(x, i) || Bit(y, i)
    decreases i
  {
    OrStep(x, y);
    if i > 0 {
      OrIsBitwise(x / 2, y / 2, i - 1);
    }
  }

  lemma OrStep(x: nat, y: nat)
    ensures Or(x, y) / 2 == Or(x / 2, y / 2)
    ensures Or(x, y) % 2 == 1 <==> x % 2 == 1 || y % 2 == 1
  {
  }

  // ---- powers of two --------------------------------------------------------------------------

  lemma {:induction false} Pow2Add(j: nat, k: nat)
    ensures Pow2(j + k) == Pow2(j) * Pow2(k)
  {
    if j > 0 {
      Pow2Add(j - 1, k);
    }
  }

  lemma {:induction false} Pow2Mono(j: nat, k: nat)
    requires j <= k
    ensures Pow2(j) <= Pow2(k)
  {
    if j < k {
      Pow2Mono(j, k - 1);
    }
  }

  /** The smaller of two powers of two divides the larger. */
  lemma SmallerPow2Divides(a: nat, b: nat)
    requires IsPow2(a) && IsPow2(b) && a <= b
    ensures a > 0 && b % a == 0
  {
    var j: nat :| a == Pow2(j);
    var k: nat :| b == Pow2(k);
    if j <= k {
      Pow2Divides(j, k);
    } else {
      Pow2Mono(k, j);
      Pow2Divides(k, j);
      MultipleMod(a, 1);
    }
  }

  lemma Pow2Divides(j: nat, k: nat)
    requires j <= k
    ensures Pow2(k) % Pow2(j) == 0
  {
    Pow2Add(j, k - j);
    MultipleMod(Pow2(j), Pow2(k - j));
  }

  // ---- masks ----------------------------------------------------------------------------------

  lemma {:induction false} AndSelf(x: nat)
    ensures And(x, x) == x
  {
    if x > 0 {
      AndSelf(x / 2);
    }
  }

  /** `n & (n - 1)` clears the lowest set bit, so it vanishes exactly on the powers of two. */
  lemma {:induction false} LowestBitCleared(n: nat)
    requires n > 0
    ensures And(n, n - 1) == 0 <==> IsPow2(n)
  {
    if n == 1 {
      assert 1 == Pow2(0);
    } else if n % 2 == 1 {
      AndSelf(n / 2);
      assert And(n, n - 1) == 2 * And(n / 2, n / 2);
      forall k: nat ensures n != Pow2(k) {
        assert k == 0 || Pow2(k) == 2 * Pow2(k - 1);
      }
    } else {
      LowestBitCleared(n / 2);
      assert (n - 1) / 2 == n / 2 - 1;
      if IsPow2(n / 2) {
        var k: nat :| n / 2 == Pow2(k);
        assert n == Pow2(k + 1);
      }
      if IsPow2(n) {
        var k: nat :| n == Pow2(k);
        assert n / 2 == Pow2(k - 1);
      }
    }
  }

  lemma {:induction false} LowMask(x: nat, k: nat)
    ensures And(x, Pow2(k) - 1) == x % Pow2(k)
  {
    var m := Pow2(k);
    if x == 0 {
      SmallMod(0, m);
    } else if k == 0 {
      assert m == 1;
      QuotientUnique(x, 1, x, 0);
    } else {
      LowMask(x / 2, k - 1);
      HalveFirst(x, Pow2(k - 1));
      LowMaskStep(x, Pow2(k - 1));
    }
  }

  lemma LowMaskStep(x: nat, m: nat)
    requires m > 0
    ensures And(x, 2 * m - 1) == 2 * And(x / 2, m - 1) + x % 2
  {
    assert (2 * m - 1) / 2 == m - 1;
  }

  lemma HighMaskStep(x: nat, high: nat)
    ensures And(x, 2 * high) == 2 * And(x / 2, high)
  {
    assert (2 * high) / 2 == high && (2 * high) % 2 == 0;
  }

  /** Masking with the complement of `2^k - 1` drops the remainder modulo `2^k`. */
  lemma {:induction false} HighMask(width: nat, x: nat, k: nat)
    requires k <= width && x < Pow2(width)
    ensures Pow2(k) <= Pow2(width)
    ensures And(x, Not(width, Pow2(k) - 1)) == x - x % Pow2(k)
  {
    hide And;
    Pow2Mono(k, width);
    if k == 0 {
      LowMask(x, width);
      SmallMod(x, Pow2(width));
      assert Pow2(k) == 1;
      QuotientUnique(x, 1, x, 0);
    } else {
      var m := Pow2(k - 1);
      HighMask(width - 1, x / 2, k - 1);
      HighMaskDouble(x, Not(width - 1, m - 1), m);
    }
  }

  lemma HighMaskDouble(x: nat, high: nat, m: nat)
    requires m > 0 && And(x / 2, high) == x / 2 - (x / 2) % m
    ensures And(x, 2 * high) == x - x % (2 * m)
  {
    hide And;
    HighMaskStep(x, high);
    HalveFirst(x, m);
  }

  lemma {:induction false} XorZero(x: nat, y: nat)
    ensures Xor(x, y) == 0 <==> x == y
    decreases x + y
  {
    if x != 0 || y != 0 {
      XorZero(x / 2, y / 2);
    }
  }

  /** Two words agree above bit `k` exactly when their exclusive or fits in `k` bits. */
  lemma {:induction false} XorBelow(x: nat, y: nat, k: nat)
    ensures Xor(x, y) < Pow2(k) <==> x / Pow2(k) == y / Pow2(k)
  {
    if k == 0 {
      XorZero(x, y);
      assert Pow2(k) == 1;
      QuotientUnique(x, 1, x, 0);
      QuotientUnique(y, 1, y, 0);
    } else {
      HalveFirst(x, Pow2(k - 1));
      HalveFirst(y, Pow2(k - 1));
      XorBelow(x / 2, y / 2, k - 1);
      XorHalves(x, y, Pow2(k - 1));
    }
  }

  lemma XorHalves(x: nat, y: nat, m: nat)
    ensures Xor(x, y) < 2 * m <==> Xor(x / 2, y / 2) < m
  {
  }

  lemma {:induction false} XorBound(x: nat, y: nat, width: nat)
    requires x < Pow2(width) && y < Pow2(width)
    ensures Xor(x, y) < Pow2(width)
  {
    if width > 0 {
      XorBound(x / 2, y / 2, width - 1);
    }
  }
}
