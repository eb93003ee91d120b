/**
 Exact rational rate conversion: a coarse decimator, a phase-selected filter and
 a remainder that says how many frames the input so far is worth.
 */
module RateConversion {
  import opened Wrappers
  import opened Arith
  import opened Filters
  import opened Decimator

  // ---------------------------------------------------------------------
  // Rates as exact fractions
  // ---------------------------------------------------------------------

  datatype Rate = Rate(num: nat, den: nat)
  {
    predicate Positive() { num >= 1 && den >= 1 }
    predicate Below(other: Rate) { num * other.den < other.num * den }
  }

  predicate Divides(d: nat, n: nat)
    requires d >= 1
  {
    n % d == 0
  }

  ghost predicate Coprime(a: nat, b: nat)
  {
    forall d: nat :: d >= 1 && Divides(d, a) && Divides(d, b) ==> d == 1
  }

  ghost predicate SameDivisors(a: nat, b: nat, c: nat, d: nat)
  {
    forall k: nat :: k >= 1 ==> (Divides(k, a) && Divides(k, b) <==> Divides(k, c) && Divides(k, d))
  }

  lemma DividesRemainder(k: nat, a: nat, b: nat)
    requires k >= 1 && b >= 1 && Divides(k, b)
    ensures Divides(k, a) <==> Divides(k, a % b)
  {
    var m := b / k;
    assert a == a % b + b * (a / b) && b == k * m;
    assert a == a % b + k * (m * (a / b));
    DivModShift(a % b, k, m * (a / b));
  }

  /** The greatest common divisor, by repeated remainders. */
  method Gcd(source: nat, stride: nat) returns (a: nat)
    requires source >= 1 && stride >= 1
    ensures a >= 1 && Divides(a, source) && Divides(a, stride)
    ensures forall k: nat :: k >= 1 && Divides(k, source) && Divides(k, stride) ==> Divides(k, a)
  {
    var b: nat;
    a, b := source, stride;
    while b != 0
      invariant a >= 1 && SameDivisors(a, b, source, stride)
      decreases b
    {
      forall k: nat | k >= 1 ensures Divides(k, a) && Divides(k, b) <==> Divides(k, b) && Divides(k, a % b) {
        if Divides(k, b) {
          DividesRemainder(k, a, b);
        }
      }
      a, b := b, a % b;
    }
    assert Divides(a, a) && Divides(a, 0);
    forall k: nat | k >= 1 && Divides(k, source) && Divides(k, stride) ensures Divides(k, a) {
    }
  }

  lemma QuotientsCoprime(a: nat, b: nat, g: nat)
    requires a >= 1 && b >= 1 && g >= 1 && Divides(g, a) && Divides(g, b)
    requires forall k: nat :: k >= 1 && Divides(k, a) && Divides(k, b) ==> Divides(k, g)
    ensures Coprime(a / g, b / g)
  {
    forall d: nat | d >= 1 && Divides(d, a / g) && Divides(d, b / g) ensures d == 1 {
      ScaledDivisor(a, g, d);
      ScaledDivisor(b, g, d);
      OnlyUnit(g, d, g * d);
    }
  }

  lemma OnlyUnit(g: nat, d: nat, scaled: nat)
    requires g >= 1 && d >= 1 && scaled == g * d && scaled >= 1 && Divides(scaled, g)
    ensures d == 1
  {
    if d > 1 {
      MulGap(g, 1, d);
      DivModUnique(g, scaled, 0, g);
    }
  }

  lemma ScaledDivisor(a: nat, g: nat, d: nat)
    requires g >= 1 && d >= 1 && Divides(g, a) && Divides(d, a / g)
    ensures g * d >= 1 && Divides(g * d, a)
  {
    var q := a / g / d;
    assert a == g * (a / g) && a / g == d * q;
    assert a == g * d * q;
    DivModUnique(a, g * d, q, 0);
  }

  /** A capture clock's sample rate in lowest terms. */
  method LowestTerms(source: nat, stride: nat) returns (rate: Rate)
    requires source >= 1 && stride >= 1
    ensures rate.Positive() && rate.num * stride == source * rate.den
    ensures Coprime(rate.num, rate.den)
  {
    var g := Gcd(source, stride);
    rate := Rate(source / g, stride / g);
    QuotientsCoprime(source, stride, g);
    assert source == g * (source / g) && stride == g * (stride / g);
    CommonFactor(g, source / g, stride / g, source, stride);
  }

  lemma CommonFactor(g: nat, p: nat, q: nat, a: nat, b: nat)
    requires g >= 1 && a == g * p && b == g * q && a >= 1 && b >= 1
    ensures p >= 1 && q >= 1 && p * b == a * q
  {
    assert p * b == p * (g * q) == (g * p) * q;
    if p == 0 || q == 0 {
      assert a * b == g * p * (g * q);
    }
  }

  function TrailingZeros(n: nat): (z: nat)
    requires n >= 1
    ensures n % Pow2(z) == 0 && (n / Pow2(z)) % 2 == 1
  {
    if n % 2 == 1 then 0
    else
      var z := TrailingZeros(n / 2);
      HalvedPower(n, Pow2(z));
      z + 1
  }

  lemma HalvedPower(n: nat, p: nat)
    requires n % 2 == 0 && p >= 1 && (n / 2) % p == 0
    ensures n % (2 * p) == 0 && n / (2 * p) == n / 2 / p
  {
    var q := n / 2 / p;
    assert n / 2 == p * q && n == 2 * p * q;
    DivModUnique(n, 2 * p, q, 0);
  }

  /** The exact value mantissa / 2^scale of a binary floating-point rate, in lowest terms. */
  function ExactRatio(mantissa: nat, scale: nat): (rate: Rate)
    requires mantissa >= 1
    ensures rate.Positive() && rate.num * Pow2(scale) == mantissa * rate.den
    ensures rate.num % 2 == 1 || rate.den == 1
  {
    var zeros := TrailingZeros(mantissa);
    var common := if zeros <= scale then zeros else scale;
    PowerSplits(common, scale - common);
    PowerDivides(mantissa, common, zeros - common);
    ExactValue(mantissa, Pow2(common), Pow2(scale - common), Pow2(scale));
    Rate(mantissa / Pow2(common), Pow2(scale - common))
  }

  lemma {:induction false} PowerSplits(a: nat, b: nat)
    ensures Pow2(a + b) == Pow2(a) * Pow2(b)
  {
    if a > 0 {
      PowerSplits(a - 1, b);
      assert Pow2(a) * Pow2(b) == 2 * (Pow2(a - 1) * Pow2(b));
    }
  }

  lemma PowerDivides(n: nat, a: nat, b: nat)
    requires n % Pow2(a + b) == 0
    ensures n % Pow2(a) == 0
  {
    PowerSplits(a, b);
    var q := n / Pow2(a + b);
    assert n == Pow2(a + b) * q;
    assert n == Pow2(a) * (Pow2(b) * q);
    DivModUnique(n, Pow2(a), Pow2(b) * q, 0);
  }

  lemma ExactValue(m: nat, p: nat, q: nat, all: nat)
    requires m >= 1 && p >= 1 && q >= 1 && all == p * q && m % p == 0
    ensures m / p >= 1 && (m / p) * all == m * q
  {
    var r := m / p;
    assert m == p * r;
    assert r * (p * q) == p * r * q;
  }

  // ---------------------------------------------------------------------
  // Counting frames
  // ---------------------------------------------------------------------

  predicate InRange(rate: Rate, output: nat)
  {
    && rate.Positive() && 100 * rate.den <= rate.num <= 20_000_000 * rate.den
    && 8_000 <= output <= 384_000
  }

  /** After decimation by `factor` the rate is at least a quarter of a million and four times the output rate. */
  predicate StaysFast(rate: Rate, output: nat, factor: nat)
  {
    factor * (rate.den * 250_000) <= rate.num && factor * (rate.den * (4 * output)) <= rate.num
  }

  /** The coarse decimation leaves at least four coarse samples a frame, or does nothing. */
  function CoarseFactor(rate: Rate, output: nat): (factor: nat)
    requires rate.Positive()
    ensures factor >= 1
    ensures factor == 1 || 4 * (factor * (rate.den * output)) <= rate.num
  {
    var q := Shares(rate.num, rate.den, output, if 4 * output < 250_000 then 250_000 else 4 * output);
    if q < 1 then 1 else q
  }

  /** It is the greatest factor that leaves the rate fast enough, or one when there is none. */
  lemma CoarseFactorIsGreatest(rate: Rate, output: nat, factor: nat)
    requires rate.Positive()
    ensures CoarseFactor(rate, output) == 1 || StaysFast(rate, output, CoarseFactor(rate, output))
    ensures StaysFast(rate, output, factor) ==> factor <= CoarseFactor(rate, output)
  {
    var share := if 4 * output < 250_000 then 250_000 else 4 * output;
    var q := Shares(rate.num, rate.den, output, share);
    if factor > q {
      ShareIsGreatest(rate.num, rate.den, share, factor);
    }
    SlowerStays(rate.num, rate.den, q, 250_000, share);
    SlowerStays(rate.num, rate.den, q, 4 * output, share);
  }

  lemma ShareIsGreatest(num: nat, den: nat, share: nat, factor: nat)
    requires den >= 1 && share >= 1 && den * share >= 1 && factor > num / (den * share)
    ensures factor * (den * share) > num
  {
    var unit := den * share;
    MulGap(unit, num / unit, factor);
  }

  lemma SlowerStays(num: nat, den: nat, q: nat, slow: nat, share: nat)
    requires den >= 1 && den * share >= 1 && slow <= share && q == num / (den * share)
    ensures q * (den * slow) <= num
  {
    var unit := den * share;
    QuotientBelow(num, unit);
    ProductMonotone(den * slow, unit, q);
    assert den * slow <= unit by {
      ProductMonotone(slow, share, den);
    }
  }

  function Shares(num: nat, den: nat, output: nat, share: nat): (q: nat)
    requires den >= 1 && share >= 1 && share >= 4 * output
    ensures 4 * (q * (den * output)) <= num
  {
    var unit := den * share;
    CoarseBound(num, den, output, share, unit);
    num / unit
  }

  lemma CoarseBound(num: nat, den: nat, output: nat, share: nat, unit: nat)
    requires den >= 1 && share >= 1 && share >= 4 * output && unit == den * share
    ensures unit >= 1 && 4 * (num / unit * (den * output)) <= num
  {
    MulGap(den, 0, share);
    QuotientBelow(num, unit);
    SharesFit(num, den, output, share, unit, num / unit);
  }

  lemma QuotientBelow(num: nat, unit: nat)
    requires unit >= 1
    ensures num / unit >= 0 && unit * (num / unit) <= num
  {
  }

  lemma SharesFit(num: nat, den: nat, output: nat, share: nat, unit: nat, q: nat)
    requires share >= 4 * output && unit == den * share && unit * q <= num
    ensures 4 * (q * (den * output)) <= num
  {
    var scaled := den * q;
    ProductMonotone(4 * output, share, scaled);
    assert unit * q == share * scaled by { Reassociate(den, share, q); }
    assert 4 * (q * (den * output)) == 4 * output * scaled by { ScaleBy4(q, den, output, scaled); }
  }

  lemma ScaleBy4(q: nat, den: nat, output: nat, scaled: nat)
    requires scaled == den * q
    ensures 4 * (q * (den * output)) == 4 * output * scaled
  {
    Reassociate(q, den, output);
    Reassociate(4, output, scaled);
  }

  /** The frames that `n` input samples are worth: their duration, rounded up. */
  function FramesDue(rate: Rate, output: nat, n: nat): nat
    requires rate.Positive()
  {
    CeilDiv(n * (rate.den * output), rate.num)
  }

  /** A remainder carried between calls counts exactly the rounded-up total. */
  lemma CarriedCount(total: nat, num: nat, delivered: nat, phase: nat, added: nat)
    requires num >= 1 && phase < num && phase + delivered * num == total + num - 1
    ensures (phase + added) % num + (delivered + (phase + added) / num) * num == total + added + num - 1
    ensures delivered + (phase + added) / num == CeilDiv(total + added, num)
  {
    var q, r := (phase + added) / num, (phase + added) % num;
    assert phase + added == num * q + r;
    assert (delivered + q) * num == delivered * num + q * num;
    DivModUnique(total + added + num - 1, num, delivered + q, r);
  }

  /** The frames produced from the coarse samples always cover those due, with at most one to spare. */
  lemma EnoughFrames(num: nat, od: nat, n: nat, factor: nat, coarse: nat, produced: nat)
    requires num >= 1 && factor >= 1 && (factor == 1 || 4 * (factor * od) <= num)
    requires coarse == CeilDiv(n, factor) && produced == CeilDiv(coarse * (od * factor), num)
    ensures CeilDiv(n * od, num) <= produced <= CeilDiv(n * od, num) + 1
  {
    CeilDivBounds(n, factor);
    var due, covered := n * od, coarse * (od * factor);
    assert covered == factor * coarse * od by { Reassociate(coarse, od, factor); Reassociate(factor, coarse, od); }
    ProductMonotone(n, factor * coarse, od);
    ProductMonotone(due, covered, num);
    CeilDivMonotone(due, num, covered, num);
    if factor == 1 {
      CeilDivUnique(n, 1, n);
    } else {
      Spare(due, covered, factor * od, num, n, factor, coarse, od);
    }
  }

  lemma Spare(due: nat, covered: nat, step: nat, num: nat, n: nat, factor: nat, coarse: nat, od: nat)
    requires num >= 1 && factor >= 1 && due == n * od && covered == factor * coarse * od && step == factor * od
    requires 4 * step <= num && (coarse > 0 ==> factor * (coarse - 1) < n)
    ensures CeilDiv(covered, num) <= CeilDiv(due, num) + 1
  {
    assert covered <= due + step by {
      if coarse > 0 {
        assert factor * coarse == factor * (coarse - 1) + factor;
        assert (n + factor - factor * coarse) * od >= 0;
        assert (n + factor) * od == n * od + factor * od;
      }
    }
    var q := CeilDiv(due, num);
    CeilDivBounds(due, num);
    assert num * (q + 1) == num * q + num;
    CeilDivAtMost(covered, num, q + 1);
  }

  /** The place of frame `k` among the coarse samples, and how far past that sample it falls. */
  function FrameIndex(num: nat, cd: nat, k: nat): nat
    requires cd >= 1
  {
    k * num / cd
  }

  function FramePhase(num: nat, cd: nat, k: nat): (phase: real)
    requires cd >= 1
    ensures 0.0 <= phase < 1.0
  {
    ProperFraction(((k * num) % cd) as real, cd as real);
    ((k * num) % cd) as real / cd as real
  }

  /** After `c` coarse samples and `produced` frames, the next frame is due `next` beyond them. */
  ghost predicate Pacing(num: nat, cd: nat, c: nat, produced: nat, next: nat)
  {
    num >= 1 && cd >= 1 && next + c * cd == produced * num && (produced > 0 ==> next < num)
  }

  lemma PacingCounts(num: nat, cd: nat, c: nat, produced: nat, next: nat)
    requires Pacing(num, cd, c, produced, next)
    ensures produced == CeilDiv(c * cd, num)
  {
    if produced > 0 {
      assert num * (produced - 1) == produced * num - num;
    }
    CeilDivUnique(c * cd, num, produced);
  }

  /** Every frame produced lies at or before the coarse samples it was computed from. */
  lemma FrameIsHeard(num: nat, cd: nat, c: nat, produced: nat, next: nat, k: nat)
    requires Pacing(num, cd, c, produced, next) && k < produced
    ensures FrameIndex(num, cd, k) < c
  {
    assert k * num + num <= produced * num by { MulGap(num, k, produced); }
    var q := k * num / cd;
    assert k * num == cd * q + k * num % cd;
    if q >= c {
      assert cd * (q - c) >= 0;
    }
  }

  lemma FrameFallsHere(num: nat, cd: nat, c: nat, k: nat, next: nat)
    requires cd >= 1 && next < cd && next + c * cd == k * num
    ensures FrameIndex(num, cd, k) == c && (k * num) % cd == next
  {
    DivModUnique(k * num, cd, c, next);
  }

  /** A causal startup interval makes up for what a floor on the way in withheld. */
  lemma RootDurationCovered(rate: Rate, source: Rate, output: nat, samples: nat, supplied: nat, heard: nat)
    requires rate.Positive() && source.Positive() && output >= 1 && !source.Below(rate)
    requires rate.den * source.num >= 1 && supplied >= samples * (rate.num * source.den) / (rate.den * source.num)
    requires heard == supplied + if rate.Below(source) then 1 else 0
    ensures FramesDue(source, output, samples) <= FramesDue(rate, output, heard)
  {
    var a, b := rate.num * source.den, rate.den * source.num;
    FloorCovered(samples, a, b, supplied, heard);
    Rescale(samples, a, heard, b, output, rate, source);
    CeilDivMonotone(samples * (source.den * output), source.num, heard * (rate.den * output), rate.num);
  }

  /**
   Frames due for more than the floor of the root samples outnumber those due at the
   root by no more than the excess is worth.
   */
  lemma Backlog(rate: Rate, source: Rate, output: nat, root: nat, floor: nat, excess: nat)
    requires rate.Positive() && source.Positive() && rate.den * source.num >= 1
    requires floor == root * (rate.num * source.den) / (rate.den * source.num)
    ensures FramesDue(rate, output, floor + excess) <= FramesDue(source, output, root) + FramesDue(rate, output, excess)
  {
    var a, b := rate.num * source.den, rate.den * source.num;
    FloorBelow(root * a, b, floor);
    FloorIsNotMore(root, a, floor, b, output, rate, source);
    CeilDivMonotone(floor * (rate.den * output), rate.num, root * (source.den * output), source.num);
    CeilDivSum(floor * (rate.den * output), excess * (rate.den * output), (floor + excess) * (rate.den * output),
               rate.num);
  }

  lemma FloorBelow(total: nat, b: nat, floor: nat)
    requires b >= 1 && floor == total / b
    ensures floor * b <= total
  {
    assert total == b * floor + total % b;
  }

  lemma FloorIsNotMore(samples: nat, a: nat, heard: nat, b: nat, output: nat, rate: Rate, source: Rate)
    requires a == rate.num * source.den && b == rate.den * source.num && heard * b <= samples * a
    ensures heard * (rate.den * output) * source.num <= samples * (source.den * output) * rate.num
  {
    assert samples * (source.den * output) * rate.num == samples * a * output;
    assert heard * (rate.den * output) * source.num == heard * b * output;
    ProductMonotone(heard * b, samples * a, output);
  }

  lemma CeilDivSum(m: nat, n: nat, total: nat, d: nat)
    requires d >= 1 && total == m + n
    ensures CeilDiv(total, d) <= CeilDiv(m, d) + CeilDiv(n, d)
  {
    CeilDivBounds(m, d);
    CeilDivBounds(n, d);
    assert d * (CeilDiv(m, d) + CeilDiv(n, d)) == d * CeilDiv(m, d) + d * CeilDiv(n, d);
    CeilDivAtMost(total, d, CeilDiv(m, d) + CeilDiv(n, d));
  }

  lemma FloorCovered(samples: nat, a: nat, b: nat, supplied: nat, heard: nat)
    requires 1 <= b && a <= b && supplied >= samples * a / b && heard == supplied + if a < b then 1 else 0
    ensures samples * a <= heard * b
  {
    var s := samples * a;
    var q := s / b;
    assert s == b * q + s % b;
    if a < b {
      ProductMonotone(q + 1, heard, b);
      assert (q + 1) * b == b * q + b;
    } else {
      DivModUnique(s, b, samples, 0);
      ProductMonotone(samples, heard, b);
    }
  }

  lemma Rescale(samples: nat, a: nat, heard: nat, b: nat, output: nat, rate: Rate, source: Rate)
    requires a == rate.num * source.den && b == rate.den * source.num && samples * a <= heard * b
    ensures samples * (source.den * output) * rate.num <= heard * (rate.den * output) * source.num
  {
    assert samples * (source.den * output) * rate.num == samples * a * output;
    assert heard * (rate.den * output) * source.num == heard * b * output;
    assert (heard * b - samples * a) * output >= 0;
  }
}
