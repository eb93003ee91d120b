/** Elementary facts about division, products and samples used throughout the model. */
module Arith {
  lemma MulGap(b: int, q: int, r: int)
    requires b >= 0 && q < r
    ensures b * r - b * q >= b
  {
    var gap: nat := r - q - 1;
    assert r == q + 1 + gap;
    Spread(b, q, gap);
    NonNegative(b, gap);
  }

  lemma Spread(b: int, q: int, gap: int)
    ensures b * (q + 1 + gap) == b * q + b + b * gap
  {
  }

  lemma NonNegative(a: int, b: int)
    requires a >= 0 && b >= 0
    ensures a * b >= 0
  {
  }

  /** Quotient and remainder are determined by the division equation. */
  lemma DivModUnique(a: int, b: int, q: int, r: int)
    requires b > 0 && 0 <= r < b
    requires a == b * q + r
    ensures a / b == q && a % b == r
  {
    var q', r' := a / b, a % b;
    assert a == b * q' + r';
    if q' > q {
      MulGap(b, q, q');
    } else if q' < q {
      MulGap(b, q', q);
    }
  }

  /** Adding a multiple of the modulus changes only the quotient. */
  lemma DivModShift(a: int, b: int, t: int)
    requires b > 0
    ensures (a + b * t) % b == a % b && (a + b * t) / b == a / b + t
  {
    assert b * (a / b + t) == b * (a / b) + b * t;
    DivModUnique(a + b * t, b, a / b + t, a % b);
  }

  lemma RealProduct(a: int, b: int)
    ensures (a * b) as real == a as real * b as real
  {
  }

  lemma HalfWithin(b: real, e: real, product: real, bound: real)
    requires 0.0 <= b <= bound && -0.5 <= e <= 0.5 && product == b * e
    ensures -0.5 * bound <= product <= 0.5 * bound
  {
    ProductNonNegative(b, 0.5 - e);
    ProductNonNegative(b, 0.5 + e);
    Distribute(b, 0.5, e);
  }

  lemma Distribute(x: real, y: real, z: real)
    ensures x * (y + z) == x * y + x * z
    ensures x * (y - z) == x * y - x * z
  {
  }

  lemma ScaledAway(size: real, away: real)
    requires size > 0.0 && -0.5 < away <= 0.5
    ensures -size / 2.0 < size * away <= size / 2.0
  {
    assert size * (0.5 - away) >= 0.0;
    assert size * (0.5 + away) > 0.0;
  }

  /** A point less than half a unit from `q`, scaled by `size`. */
  lemma ScaledPoint(size: real, q: real, point: real, away: real, ref: real)
    requires size > 0.0 && -0.5 < away <= 0.5 && point == q + away && ref == size * q
    ensures ref - size / 2.0 < size * point <= ref + size / 2.0
  {
    var scaled := size * away;
    assert -size / 2.0 < scaled <= size / 2.0 by { ScaledAway(size, away); }
    assert size * point == ref + scaled by { Distribute(size, q, away); }
  }

  lemma Quotient(x: real, d: real)
    requires d != 0.0
    ensures d * (x / d) == x
  {
  }

  lemma FloorShift(x: real, k: int)
    ensures (x + k as real).Floor == x.Floor + k
  {
  }

  lemma ProductNonNegative(a: real, b: real)
    requires a >= 0.0 && b >= 0.0
    ensures a * b >= 0.0
  {
  }

  /** The least `q` with `d q >= n`. */
  function CeilDiv(n: nat, d: nat): nat
    requires d >= 1
  {
    (n + d - 1) / d
  }

  lemma CeilDivUnique(n: nat, d: nat, q: nat)
    requires d >= 1 && d * q >= n && (q == 0 || d * (q - 1) < n)
    ensures CeilDiv(n, d) == q
  {
    if q == 0 {
      DivModUnique(n + d - 1, d, 0, d - 1);
    } else {
      assert d * (q - 1) == d * q - d;
      DivModUnique(n + d - 1, d, q, n + d - 1 - d * q);
    }
  }

  lemma CeilDivBounds(n: nat, d: nat)
    requires d >= 1
    ensures d * CeilDiv(n, d) >= n
    ensures CeilDiv(n, d) > 0 ==> d * (CeilDiv(n, d) - 1) < n
    ensures n > 0 ==> CeilDiv(n, d) > 0
  {
    var q := CeilDiv(n, d);
    assert n + d - 1 == d * q + (n + d - 1) % d;
    if q > 0 {
      assert d * (q - 1) == d * q - d;
    }
  }

  lemma CeilDivAtMost(n: nat, d: nat, q: nat)
    requires d >= 1 && d * q >= n
    ensures CeilDiv(n, d) <= q
  {
    var p := CeilDiv(n, d);
    CeilDivBounds(n, d);
    if p > q {
      MulGap(d, q, p);
    }
  }

  lemma ProductMonotone(a: int, b: int, c: nat)
    requires a <= b
    ensures a * c <= b * c && c * a <= c * b
  {
    assert (b - a) * c >= 0;
  }

  lemma Reassociate(a: int, b: int, c: int)
    ensures a * (b * c) == a * b * c && a * b * c == b * (a * c) && a * b * c == c * (a * b)
  {
  }

  lemma Cancel(x: int, y: int, d: int)
    requires d >= 1 && x * d <= y * d
    ensures x <= y
  {
    if x > y {
      MulGap(d, y, x);
    }
  }

  /** Rounded-up quotients are ordered like the fractions. */
  lemma CeilDivMonotone(a: nat, b: nat, c: nat, d: nat)
    requires b >= 1 && d >= 1 && a * d <= c * b
    ensures CeilDiv(a, b) <= CeilDiv(c, d)
  {
    var q := CeilDiv(c, d);
    CeilDivBounds(c, d);
    assert (d * q - c) * b >= 0;
    assert a * d <= b * q * d;
    Cancel(a, b * q, d);
    CeilDivAtMost(a, b, q);
  }

  lemma CeilDivStep(n: nat, d: nat)
    requires d >= 1
    ensures CeilDiv(n + 1, d) == CeilDiv(n, d) + if n % d == 0 then 1 else 0
  {
    var q, r := n / d, n % d;
    assert n == d * q + r;
    if r == 0 {
      DivModUnique(n + d - 1, d, q, d - 1);
      assert n + d == d * (q + 1);
      DivModUnique(n + d, d, q + 1, 0);
    } else {
      assert n + d - 1 == d * (q + 1) + (r - 1);
      DivModUnique(n + d - 1, d, q + 1, r - 1);
      assert n + d == d * (q + 1) + r;
      DivModUnique(n + d, d, q + 1, r);
    }
  }

  lemma ProperFraction(a: real, b: real)
    requires 0.0 <= a < b
    ensures 0.0 <= a / b < 1.0
  {
    var q := a / b;
    assert b * q == a by { Quotient(a, b); }
    if q >= 1.0 {
      ProductNonNegative(b, q - 1.0);
      Distribute(b, q, 1.0);
    } else if q < 0.0 {
      NegativeProduct(b, q);
    }
  }

  lemma NegativeProduct(b: real, q: real)
    requires b > 0.0 && q < 0.0
    ensures b * q < 0.0
  {
  }

  /** Comparing a quotient is comparing the scaled value. */
  lemma ScaledCompare(r: real, c: real, b: real, scaled: real)
    requires b > 0.0 && scaled == r * b
    ensures r <= c <==> scaled <= c * b
    ensures c <= r <==> c * b <= scaled
  {
    if r <= c {
      assert (c - r) * b >= 0.0;
    } else {
      assert (r - c) * b > 0.0;
    }
    if c <= r {
      assert (r - c) * b >= 0.0;
    }
  }

  function Pow2(j: nat): (p: nat)
    ensures p >= 1
  {
    if j == 0 then 1 else 2 * Pow2(j - 1)
  }

  /** Sample `i` of a stream that is silent before it starts and after it ends. */
  function At(x: seq<real>, i: int): real
  {
    if 0 <= i < |x| then x[i] else 0.0
  }
}
