/** Quotients and remainders by a divisor that is itself a variable. Every step is a lemma, so that
    no proof elsewhere has to reason about a product of two variables. */
module DivMod {

  lemma {:induction false} MulMono(m: nat, q: nat, p: nat)
    requires q < p
    ensures m * q + m <= m * p
    decreases p
  {
    var k := p - 1;
    assert m * (k + 1) == m * k + m;
    if q < k {
      MulMono(m, q, k);
    }
  }

  lemma SplitUnique(m: nat, q: nat, r: nat, p: nat, s: nat)
    requires r < m && s < m
    requires m * q + r == m * p + s
    ensures q == p && r == s
  {
    if p > q {
      MulMono(m, q, p);
    } else if q > p {
      MulMono(m, p, q);
    }
  }

  lemma Split(x: nat, m: nat)
    requires m > 0
    ensures x / m >= 0 && x == m * (x / m) + x % m && 0 <= x % m < m
  {
  }

  lemma QuotientUnique(x: nat, m: nat, q: nat, r: nat)
    requires r < m && x == m * q + r
    ensures x / m == q && x % m == r
  {
    Split(x, m);
    SplitUnique(m, q, r, x / m, x % m);
  }

  lemma SmallMod(x: nat, m: nat)
    requires x < m
    ensures x / m == 0 && x % m == x
  {
    QuotientUnique(x, m, 0, x);
  }

  lemma MultipleMod(m: nat, q: nat)
    requires m > 0
    ensures (m * q) % m == 0 && (m * q) / m == q
  {
    QuotientUnique(m * q, m, q, 0);
  }

  /** A multiple of `m` added on the left moves the quotient and keeps the remainder. */
  lemma AddMultiple(x: nat, y: nat, m: nat)
    requires m > 0 && x % m == 0
    ensures (x + y) % m == y % m && (x + y) / m == x / m + y / m
  {
    Split(x, m);
    Split(y, m);
    assert x + y == m * (x / m + y / m) + y % m by {
      assert m * (x / m + y / m) == m * (x / m) + m * (y / m);
    }
    QuotientUnique(x + y, m, x / m + y / m, y % m);
  }

  /** Dropping the remainder leaves a multiple. */
  lemma DropRemainder(x: nat, m: nat)
    requires m > 0
    ensures (x - x % m) % m == 0 && 0 <= x % m <= x
  {
    Split(x, m);
    MultipleMod(m, x / m);
    assert x - x % m == m * (x / m);
    assert m * (x / m) >= 0;
  }

  lemma SubMultiple(x: nat, y: nat, m: nat)
    requires m > 0 && y <= x && y % m == 0
    ensures (x - y) % m == x % m
  {
    AddMultiple(y, x - y, m);
  }

  /** Two multiples of `m` that differ are at least `m` apart. */
  lemma MultiplesApart(x: nat, y: nat, m: nat)
    requires m > 0 && x % m == 0 && y % m == 0 && x < y
    ensures x + m <= y
  {
    SubMultiple(y, x, m);
    if y - x < m {
      SmallMod(y - x, m);
    }
  }

  /** Divisibility is transitive. */
  lemma ModThrough(x: nat, big: nat, small: nat)
    requires big > 0 && small > 0 && x % big == 0 && big % small == 0
    ensures x % small == 0
  {
    Split(x, big);
    Split(big, small);
    var q, p := x / big, big / small;
    assert x == small * (p * q) by {
      assert x == big * q && big == small * p;
      assert (small * p) * q == small * (p * q);
    }
    assert p * q >= 0;
    MultipleMod(small, p * q);
  }

  /** Dividing by `2 * m` is dividing by 2 and then by `m`. */
  lemma HalveFirst(x: nat, m: nat)
    requires m > 0
    ensures x % (2 * m) == 2 * ((x / 2) % m) + x % 2
    ensures x / (2 * m) == (x / 2) / m
  {
    Split(x / 2, m);
    var q, r := (x / 2) / m, (x / 2) % m;
    assert (2 * m) * q == 2 * (m * q);
    QuotientUnique(x, 2 * m, q, 2 * r + x % 2);
  }
}
