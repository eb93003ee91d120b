/**
 Streaming FIR building blocks over a double-written ring: the half-band
 decimating stage and the phase-selected filter.  Taps are real, so each
 component of a complex sample is filtered independently; one is modelled.
 */
module Filters {
  import opened Wrappers
  import opened Arith

  // ---------------------------------------------------------------------
  // Reference: a FIR over the most recent samples
  // ---------------------------------------------------------------------

  /** The most recent `n` samples, oldest first. */
  function Latest(x: seq<real>, n: nat): (w: seq<real>)
    ensures |w| == n
  {
    seq(n, i requires 0 <= i < n => At(x, |x| - n + i))
  }

  /** The first `k` terms of the inner product of two windows. */
  function Dot(taps: seq<real>, w: seq<real>, k: nat): real
    requires k <= |taps| && k <= |w|
  {
    if k == 0 then 0.0 else Dot(taps, w, k - 1) + taps[k - 1] * w[k - 1]
  }

  function Fir(taps: seq<real>, x: seq<real>): real
  {
    Dot(taps, Latest(x, |taps|), |taps|)
  }

  // ---------------------------------------------------------------------
  // The ring: every sample is written twice, so the window is contiguous
  // ---------------------------------------------------------------------

  lemma WrapStep(write: nat, len: nat)
    requires write < len
    ensures (write + 1) % len == if write + 1 < len then write + 1 else 0
  {
    DivModUnique(write + 1, len, if write + 1 < len then 0 else 1, if write + 1 < len then write + 1 else 0);
  }

  class DoubleRing {
    const len: nat
    const history: array<real>
    var write: nat
    /** Every sample pushed since the last clear. */
    ghost var past: seq<real>

    ghost predicate Valid()
      reads this, history
    {
      && len >= 1 && history.Length == 2 * len && write < len
      && (forall k :: 0 <= k < len ==> history[k] == history[k + len])
      && (forall k :: write <= k < write + len ==> history[k] == At(past, |past| - len + k - write))
    }

    /** The contiguous window of the most recent samples, oldest first. */
    function Window(): (w: seq<real>)
      requires Valid()
      reads this, history
      ensures w == Latest(past, len)
    {
      history[write..write + len]
    }

    constructor (len: nat)
      requires len >= 1
      ensures Valid() && fresh(history) && this.len == len && past == []
    {
      this.len := len;
      history := new real[2 * len](_ => 0.0);
      write := 0;
      past := [];
    }

    method Clear()
      requires len >= 1 && history.Length == 2 * len
      modifies this, history
      ensures Valid() && past == []
    {
      forall k | 0 <= k < history.Length {
        history[k] := 0.0;
      }
      write := 0;
      past := [];
    }

    method Push(sample: real)
      requires Valid()
      modifies this, history
      ensures Valid() && past == old(past) + [sample]
    {
      history[write] := sample;
      history[write + len] := sample;
      WrapStep(write, len);
      var next := (write + 1) % len;
      ghost var now := past + [sample];
      forall k | next <= k < next + len
        ensures history[k] == At(now, |now| - len + k - next)
      {
        if write + 1 == len && k < len - 1 {
          assert history[k] == old(history[k + len]);
        }
      }
      write := next;
      past := now;
    }
  }

  // ---------------------------------------------------------------------
  // Half-band stage
  // ---------------------------------------------------------------------

  const HALF_BAND_TAPS: nat := 63

  /** The 63-tap response: symmetric, and zero at every odd offset but the centre. */
  function HalfBandTaps(paired: seq<real>, center: real): (taps: seq<real>)
    requires |paired| == 16
    ensures |taps| == HALF_BAND_TAPS
  {
    seq(HALF_BAND_TAPS, k requires 0 <= k < HALF_BAND_TAPS =>
      if k == 31 then center
      else if k % 2 == 1 then 0.0
      else if k < 31 then paired[k / 2]
      else paired[(62 - k) / 2])
  }

  /** The sum of the first `n` folded pairs. */
  function FoldedSum(paired: seq<real>, w: seq<real>, n: nat): real
    requires |paired| == 16 && |w| == HALF_BAND_TAPS && n <= 16
  {
    if n == 0 then 0.0 else FoldedSum(paired, w, n - 1) + (w[2 * (n - 1)] + w[62 - 2 * (n - 1)]) * paired[n - 1]
  }

  lemma DotStep(taps: seq<real>, w: seq<real>, k: nat)
    requires k < |taps| && k < |w|
    ensures Dot(taps, w, k + 1) == Dot(taps, w, k) + taps[k] * w[k]
  {
  }

  /** One more pair adds the same at both ends of the full product. */
  lemma OuterStep(taps: seq<real>, w: seq<real>, a: nat, b: nat, p: real)
    requires a + 2 <= b < |taps| == |w|
    requires taps[a] == p && taps[a + 1] == 0.0 && taps[b] == p && taps[b - 1] == 0.0
    ensures Dot(taps, w, a + 2) == Dot(taps, w, a) + p * w[a]
    ensures Dot(taps, w, b + 1) == Dot(taps, w, b - 1) + p * w[b]
  {
    DotStep(taps, w, a);
    DotStep(taps, w, a + 1);
    DotStep(taps, w, b - 1);
    DotStep(taps, w, b);
  }

  /** `n` folded pairs are the outer `2n` terms at each end of the full product. */
  lemma {:induction false} FoldedIsOuter(paired: seq<real>, center: real, taps: seq<real>, w: seq<real>, n: nat)
    requires |paired| == 16 && |w| == HALF_BAND_TAPS && n <= 15 && taps == HalfBandTaps(paired, center)
    ensures FoldedSum(paired, w, n) == Dot(taps, w, 2 * n) + Dot(taps, w, 63) - Dot(taps, w, 63 - 2 * n)
  {
    if n > 0 {
      FoldedIsOuter(paired, center, taps, w, n - 1);
      OuterStep(taps, w, 2 * n - 2, 64 - 2 * n, paired[n - 1]);
      PairFolds(paired, w, n);
    }
  }

  lemma PairFolds(paired: seq<real>, w: seq<real>, n: nat)
    requires |paired| == 16 && |w| == HALF_BAND_TAPS && 1 <= n <= 16
    ensures FoldedSum(paired, w, n)
        == FoldedSum(paired, w, n - 1) + paired[n - 1] * w[2 * n - 2] + paired[n - 1] * w[64 - 2 * n]
  {
    Distribute(paired[n - 1], w[2 * n - 2], w[64 - 2 * n]);
  }

  /** The folded sum is the full 63-tap inner product. */
  lemma FoldedIsFull(paired: seq<real>, center: real, w: seq<real>)
    requires |paired| == 16 && |w| == HALF_BAND_TAPS
    ensures w[31] * center + FoldedSum(paired, w, 16) == Dot(HalfBandTaps(paired, center), w, 63)
  {
    var taps := HalfBandTaps(paired, center);
    FoldedIsOuter(paired, center, taps, w, 15);
    assert taps[30] == paired[15] && taps[31] == center && taps[32] == paired[15];
    assert Dot(taps, w, 31) == Dot(taps, w, 30) + paired[15] * w[30];
    assert Dot(taps, w, 32) == Dot(taps, w, 31) + center * w[31];
    assert Dot(taps, w, 33) == Dot(taps, w, 32) + paired[15] * w[32];
    Distribute(paired[15], w[30], w[32]);
  }

  /** The folded evaluation of one window, pairing the equal taps. */
  method FoldWindow(paired: seq<real>, center: real, window: seq<real>) returns (output: real)
    requires |paired| == 16 && |window| == HALF_BAND_TAPS
    ensures output == Dot(HalfBandTaps(paired, center), window, HALF_BAND_TAPS)
  {
    output := window[31] * center;
    for n := 0 to 16
      invariant output == window[31] * center + FoldedSum(paired, window, n)
    {
      output := output + (window[2 * n] + window[62 - 2 * n]) * paired[n];
    }
    FoldedIsFull(paired, center, window);
  }

  class HalfBandStage {
    const paired: seq<real>
    const center: real
    const ring: DoubleRing
    var emit: bool

    ghost predicate Valid()
      reads this, ring, ring.history
    {
      && |paired| == 16 && ring.len == HALF_BAND_TAPS && ring.Valid()
      && emit == (|ring.past| % 2 == 0)
    }

    ghost function Taps(): seq<real>
      requires |paired| == 16
    {
      HalfBandTaps(paired, center)
    }

    constructor (paired: seq<real>, center: real)
      requires |paired| == 16
      ensures Valid() && fresh(ring) && fresh(ring.history)
      ensures this.paired == paired && this.center == center && ring.past == []
    {
      this.paired, this.center := paired, center;
      ring := new DoubleRing(HALF_BAND_TAPS);
      emit := true;
    }

    method Reset()
      requires |paired| == 16 && ring.len == HALF_BAND_TAPS && ring.history.Length == 2 * ring.len
      modifies this, ring, ring.history
      ensures Valid() && ring.past == []
    {
      ring.Clear();
      emit := true;
    }

    /** Take a sample; every second call, starting with the first, returns the filtered value. */
    method Push(sample: real) returns (r: Option<real>)
      requires Valid()
      modifies this, ring, ring.history
      ensures Valid() && ring.past == old(ring.past) + [sample]
      ensures r == if |old(ring.past)| % 2 == 0 then Some(Fir(Taps(), ring.past)) else None
    {
      ring.Push(sample);
      var emitting := emit;
      emit := !emit;
      if !emitting {
        return None;
      }
      var output := FoldWindow(paired, center, ring.Window());
      r := Some(output);
    }
  }

  // ---------------------------------------------------------------------
  // What determines a FIR: it is additive, and a lone sample meets the tap of its age
  // ---------------------------------------------------------------------

  /** Two streams of one length, added. */
  function Sum(x: seq<real>, y: seq<real>): (z: seq<real>)
    requires |x| == |y|
    ensures |z| == |x|
  {
    seq(|x|, i requires 0 <= i < |x| => x[i] + y[i])
  }

  lemma FirAdds(taps: seq<real>, x: seq<real>, y: seq<real>)
    requires |x| == |y|
    ensures Fir(taps, Sum(x, y)) == Fir(taps, x) + Fir(taps, y)
  {
    var n := |taps|;
    var a, b, c := Latest(x, n), Latest(y, n), Latest(Sum(x, y), n);
    forall i | 0 <= i < n ensures c[i] == a[i] + b[i] {
      assert c[i] == At(Sum(x, y), |x| - n + i) && a[i] == At(x, |x| - n + i) && b[i] == At(y, |x| - n + i);
    }
    DotAdds(taps, a, b, c, n);
  }

  lemma {:induction false} DotAdds(taps: seq<real>, x: seq<real>, y: seq<real>, z: seq<real>, k: nat)
    requires |x| == |y| == |z| && k <= |taps| && k <= |x| && forall i :: 0 <= i < |x| ==> z[i] == x[i] + y[i]
    ensures Dot(taps, z, k) == Dot(taps, x, k) + Dot(taps, y, k)
  {
    if k > 0 {
      DotAdds(taps, x, y, z, k - 1);
      Distribute(taps[k - 1], x[k - 1], y[k - 1]);
    }
  }

  /** A stream silent but for the sample `age` samples before the last. */
  ghost predicate Lone(x: seq<real>, age: nat)
  {
    age < |x| && forall i :: 0 <= i < |x| && i != |x| - 1 - age ==> x[i] == 0.0
  }

  /** A lone sample is weighed by the tap as far from the last as the sample is, and by none if it is too old. */
  lemma FirOfLone(taps: seq<real>, x: seq<real>, age: nat)
    requires Lone(x, age)
    ensures Fir(taps, x) == if age < |taps| then taps[|taps| - 1 - age] * x[|x| - 1 - age] else 0.0
  {
    var n := |taps|;
    var w := Latest(x, n);
    forall i | 0 <= i < n ensures w[i] == if i == n - 1 - age then x[|x| - 1 - age] else 0.0 {
      assert w[i] == At(x, |x| - n + i);
    }
    if age < n {
      DotOfLone(taps, w, n - 1 - age, n);
    } else {
      DotOfSilence(taps, w, n);
    }
  }

  lemma {:induction false} DotOfSilence(taps: seq<real>, w: seq<real>, k: nat)
    requires k <= |taps| && k <= |w| && forall i :: 0 <= i < k ==> w[i] == 0.0
    ensures Dot(taps, w, k) == 0.0
  {
    if k > 0 {
      DotOfSilence(taps, w, k - 1);
    }
  }

  lemma {:induction false} DotOfLone(taps: seq<real>, w: seq<real>, at: nat, k: nat)
    requires at < k <= |taps| && k <= |w| && forall i :: 0 <= i < k && i != at ==> w[i] == 0.0
    ensures Dot(taps, w, k) == taps[at] * w[at]
  {
    if k - 1 == at {
      DotOfSilence(taps, w, k - 1);
    } else {
      DotOfLone(taps, w, at, k - 1);
    }
  }

  // ---------------------------------------------------------------------
  // Phase-selected filter
  // ---------------------------------------------------------------------

  function Blended(low: seq<real>, high: seq<real>, blend: real): (taps: seq<real>)
    requires |low| == |high|
    ensures |taps| == |low|
  {
    seq(|low|, i requires 0 <= i < |low| => low[i] + (high[i] - low[i]) * blend)
  }

  /**
   The taps in effect at a fractional bank coordinate: a bank when it falls on
   one, otherwise the blend of two neighbouring banks.
   */
  function TapsAt(banks: seq<seq<real>>, len: nat, coordinate: real): (taps: seq<real>)
    requires |banks| >= 1 && (forall b :: 0 <= b < |banks| ==> |banks[b]| == len)
    requires 0.0 <= coordinate <= (|banks| - 1) as real
    ensures |taps| == len
  {
    var bank := coordinate.Floor;
    var blend := coordinate - bank as real;
    if blend == 0.0 then banks[bank] else Blended(banks[bank], banks[bank + 1], blend)
  }

  /** The bank coordinate of a phase; a phase below one never reads past the last bank. */
  function Coordinate(phase: real, last: nat): (c: real)
    requires 0.0 <= phase < 1.0
    ensures 0.0 <= c <= last as real
  {
    ProductNonNegative(phase, last as real);
    ProductNonNegative(1.0 - phase, last as real);
    Distribute(last as real, 1.0, phase);
    phase * last as real
  }

  function PhaseTaps(banks: seq<seq<real>>, len: nat, phase: real): (taps: seq<real>)
    requires |banks| >= 1 && (forall b :: 0 <= b < |banks| ==> |banks[b]| == len) && 0.0 <= phase < 1.0
    ensures |taps| == len
  {
    TapsAt(banks, len, Coordinate(phase, |banks| - 1))
  }

  /**
   What a phase asks of `banks`, over the latest of `x`: at `b` intervals exactly,
   the FIR of bank `b`; between two, the FIRs of both weighed by the distance to
   the other.
   */
  ghost predicate Interpolates(banks: seq<seq<real>>, phase: real, x: seq<real>, y: real)
  {
    InterpolatesAt(banks, phase * (|banks| - 1) as real, x, y)
  }

  ghost predicate InterpolatesAt(banks: seq<seq<real>>, place: real, x: seq<real>, y: real)
  {
    && (forall b :: 0 <= b < |banks| && place == b as real ==> y == Fir(banks[b], x))
    && (forall b :: 0 <= b < |banks| - 1 && b as real < place < (b + 1) as real ==>
          y == ((b + 1) as real - place) * Fir(banks[b], x) + (place - b as real) * Fir(banks[b + 1], x))
  }

  lemma PhaseInterpolates(banks: seq<seq<real>>, len: nat, phase: real, x: seq<real>)
    requires |banks| >= 1 && (forall b :: 0 <= b < |banks| ==> |banks[b]| == len) && 0.0 <= phase < 1.0
    ensures Interpolates(banks, phase, x, Fir(PhaseTaps(banks, len, phase), x))
  {
    var place, y := Coordinate(phase, |banks| - 1), Fir(PhaseTaps(banks, len, phase), x);
    assert InterpolatesAt(banks, place, x, y) by {
      PlaceInterpolates(banks, len, place, x);
    }
    assert place == phase * (|banks| - 1) as real;
    SamePlace(banks, place, phase * (|banks| - 1) as real, x, y);
  }

  lemma SamePlace(banks: seq<seq<real>>, place: real, place': real, x: seq<real>, y: real)
    requires place == place' && InterpolatesAt(banks, place, x, y)
    ensures InterpolatesAt(banks, place', x, y)
  {
  }

  lemma PlaceInterpolates(banks: seq<seq<real>>, len: nat, place: real, x: seq<real>)
    requires |banks| >= 1 && (forall b :: 0 <= b < |banks| ==> |banks[b]| == len)
    requires 0.0 <= place <= (|banks| - 1) as real
    ensures InterpolatesAt(banks, place, x, Fir(TapsAt(banks, len, place), x))
  {
    var y := Fir(TapsAt(banks, len, place), x);
    forall b | 0 <= b < |banks| && place == b as real ensures y == Fir(banks[b], x) {
      assert place.Floor == b;
    }
    forall b | 0 <= b < |banks| - 1 && b as real < place < (b + 1) as real
      ensures y == ((b + 1) as real - place) * Fir(banks[b], x) + (place - b as real) * Fir(banks[b + 1], x)
    {
      BetweenBanks(banks, len, place, b, place - b as real, x);
    }
  }

  lemma BetweenBanks(banks: seq<seq<real>>, len: nat, place: real, b: nat, blend: real, x: seq<real>)
    requires b < |banks| - 1 && (forall b :: 0 <= b < |banks| ==> |banks[b]| == len)
    requires b as real < place < (b + 1) as real && blend == place - b as real
    ensures Fir(TapsAt(banks, len, place), x) == (1.0 - blend) * Fir(banks[b], x) + blend * Fir(banks[b + 1], x)
  {
    assert place.Floor == b;
    BlendedFir(banks[b], banks[b + 1], blend, x);
  }

  lemma BlendedFir(low: seq<real>, high: seq<real>, blend: real, x: seq<real>)
    requires |low| == |high|
    ensures Fir(Blended(low, high, blend), x) == (1.0 - blend) * Fir(low, x) + blend * Fir(high, x)
  {
    BlendedDot(low, high, blend, Latest(x, |low|), |low|);
  }

  lemma {:induction false} BlendedDot(low: seq<real>, high: seq<real>, blend: real, w: seq<real>, k: nat)
    requires |low| == |high| && k <= |low| && k <= |w|
    ensures Dot(Blended(low, high, blend), w, k) == (1.0 - blend) * Dot(low, w, k) + blend * Dot(high, w, k)
  {
    if k > 0 {
      BlendedDot(low, high, blend, w, k - 1);
      BlendedTerm(low[k - 1], high[k - 1], blend, w[k - 1], Dot(low, w, k - 1), Dot(high, w, k - 1));
    }
  }

  lemma BlendedTerm(low: real, high: real, blend: real, x: real, lows: real, highs: real)
    ensures (1.0 - blend) * lows + blend * highs + (low + (high - low) * blend) * x
         == (1.0 - blend) * (lows + low * x) + blend * (highs + high * x)
  {
  }

  method WeightedSum(window: seq<real>, taps: seq<real>) returns (y: real)
    requires |window| == |taps|
    ensures y == Dot(taps, window, |taps|)
  {
    y := 0.0;
    for i := 0 to |window|
      invariant y == Dot(taps, window, i)
    {
      y := y + window[i] * taps[i];
    }
  }

  /** Interpolating coefficients, never samples. */
  method BlendedSum(window: seq<real>, low: seq<real>, high: seq<real>, blend: real) returns (y: real)
    requires |window| == |low| == |high|
    ensures y == Dot(Blended(low, high, blend), window, |low|)
  {
    y := 0.0;
    for i := 0 to |window|
      invariant y == Dot(Blended(low, high, blend), window, i)
    {
      y := y + window[i] * (low[i] + (high[i] - low[i]) * blend);
    }
  }

  class PhaseFilter {
    const banks: seq<seq<real>>
    const ring: DoubleRing

    ghost predicate Valid()
      reads ring, ring.history
    {
      && |banks| >= 1 && (forall b :: 0 <= b < |banks| ==> |banks[b]| == ring.len)
      && ring.Valid()
    }

    constructor (banks: seq<seq<real>>, len: nat)
      requires len >= 1 && |banks| >= 1 && (forall b :: 0 <= b < |banks| ==> |banks[b]| == len)
      ensures Valid() && fresh(ring) && fresh(ring.history)
      ensures this.banks == banks && ring.len == len && ring.past == []
    {
      this.banks := banks;
      ring := new DoubleRing(len);
    }

    method Output(phase: real) returns (y: real)
      requires Valid() && 0.0 <= phase < 1.0
      ensures y == Fir(PhaseTaps(banks, ring.len, phase), ring.past)
      ensures Interpolates(banks, phase, ring.past, y)
    {
      PhaseInterpolates(banks, ring.len, phase, ring.past);
      y := OutputAt(Coordinate(phase, |banks| - 1));
    }

    method OutputAt(coordinate: real) returns (y: real)
      requires Valid() && 0.0 <= coordinate <= (|banks| - 1) as real
      ensures y == Fir(TapsAt(banks, ring.len, coordinate), ring.past)
    {
      var bank := coordinate.Floor;
      var blend := coordinate - bank as real;
      if blend == 0.0 {
        y := WeightedSum(ring.Window(), banks[bank]);
      } else {
        y := BlendedSum(ring.Window(), banks[bank], banks[bank + 1], blend);
      }
    }
  }
}
