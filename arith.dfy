/**
 * Integer facts the card arithmetic needs. A card id is `suit * V + rank`
 * (rank in [0, V)), and the deals place cards at slots `j * S + i`; the
 * solver cannot do this non-linear division reasoning unaided.
 */
module Arith {

  lemma {:induction false} MulAtLeast(m: int, d: int)
    requires m > 0 && d >= 1
    ensures m * d >= m
  {
    if d > 1 {
      MulAtLeast(m, d - 1);
      assert m * d == m * (d - 1) + m;
    }
  }

  /** Euclidean division is unique: `q * m + r` with `0 <= r < m` divides back to `q` and `r`. */
  lemma DivModUnique(k: int, m: int, q: int, r: int)
    requires m > 0 && 0 <= r < m && k == q * m + r
    ensures k / m == q && k % m == r
  {
    var d := k / m - q;
    assert m * d == r - k % m;
    if d >= 1 {
      MulAtLeast(m, d);
    } else if d <= -1 {
      MulAtLeast(m, -d);
    }
  }

  /** Distinct rows or columns of a grid with `m` columns give distinct slots. */
  lemma GridSlotInjective(q: int, r: int, q2: int, r2: int, m: int)
    requires m > 0 && 0 <= r < m && 0 <= r2 < m
    ensures q * m + r == q2 * m + r2 <==> q == q2 && r == r2
  {
    if q * m + r == q2 * m + r2 {
      DivModUnique(q * m + r, m, q, r);
      DivModUnique(q * m + r, m, q2, r2);
    }
  }

  /** A slot `q * m + r` of a grid with `n` rows of `m` columns lies inside the grid. */
  lemma GridIndexInRange(q: int, m: int, r: int, n: int)
    requires 0 <= q < n && 0 <= r < m
    ensures 0 <= q * m + r < n * m
  {
    MulNonNegative(q, m);
    assert n * m == (n - 1 - q) * m + q * m + m;
    MulNonNegative(n - 1 - q, m);
  }

  lemma MulNonNegative(a: int, b: int)
    requires a >= 0 && b >= 0
    ensures a * b >= 0
  {
    if a > 0 && b > 0 {
      MulAtLeast(b, a);
    }
  }

  /** Every multiple `q * m` leaves remainder 0. */
  lemma MultipleMod(q: int, m: int)
    requires m > 0
    ensures (q * m) % m == 0 && (q * m) / m == q
  {
    DivModUnique(q * m, m, q, 0);
  }

  /** Splits `k` into the quotient and remainder it is made of. */
  lemma Split(k: int, m: int)
    requires m > 0 && k >= 0
    ensures k == (k / m) * m + k % m && 0 <= k % m < m && k / m >= 0
  {
  }

  /** Multiplication by a non-negative factor is monotone. */
  lemma MulMonotone(a: int, b: int, m: int)
    requires a <= b && m >= 0
    ensures a * m <= b * m
  {
    MulNonNegative(b - a, m);
    assert b * m == a * m + (b - a) * m;
  }

  /** A value in row `i` of a grid with `n` rows of `m` columns lies inside the grid. */
  lemma RowInGrid(c: int, i: int, n: int, m: int)
    requires 0 <= i < n && i * m <= c < i * m + m
    ensures 0 <= c < n * m
  {
    MulNonNegative(i, m);
    MulMonotone(i + 1, n, m);
    assert (i + 1) * m == i * m + m;
  }

  /** A grid slot below `n * m` has quotient below `n`. */
  lemma QuotientBelow(k: int, m: int, n: int)
    requires m > 0 && 0 <= k < n * m
    ensures 0 <= k / m < n
  {
    Split(k, m);
    if k / m >= n {
      MulMonotone(n, k / m, m);
    }
  }

  /** Incrementing a remainder modulo `m` agrees with incrementing the count: how a wrapping counter advances. */
  lemma ModSucc(h: int, m: int)
    requires m > 0 && h >= 0
    ensures (h % m + 1) % m == (h + 1) % m
  {
    Split(h, m);
    var q, r := h / m, h % m;
    if r + 1 < m {
      DivModUnique(h + 1, m, q, r + 1);
      DivModUnique(r + 1, m, 0, r + 1);
    } else {
      DivModUnique(h + 1, m, q + 1, 0);
      DivModUnique(r + 1, m, 1, 0);
    }
  }

  /** Decrementing a remainder modulo `m` (by adding `m - 1`) agrees with decrementing a positive count. */
  lemma ModPred(h: int, m: int)
    requires m > 0 && h >= 1
    ensures (h % m + m - 1) % m == (h - 1) % m
  {
    Split(h, m);
    var q, r := h / m, h % m;
    if r >= 1 {
      DivModUnique(h - 1, m, q, r - 1);
      DivModUnique(r + m - 1, m, 1, r - 1);
    } else {
      assert q * m == (q - 1) * m + m;
      DivModUnique(h - 1, m, q - 1, m - 1);
      DivModUnique(m - 1, m, 0, m - 1);
    }
  }
}
