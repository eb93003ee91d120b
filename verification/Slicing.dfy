/**
 Bit slicing at 2.4 samples a bit.  Time is counted in fifths of a sample, so a
 message bit is twelve fifths: six high and six low, or the reverse.
 */
module Slicing {
  const FIRST_BIT: nat := 95
  const BIT: nat := 12
  const WINDOW: nat := 290

  // ---------------------------------------------------------------------
  // Reference: correlation with an ideal bit
  // ---------------------------------------------------------------------

  function Min(a: int, b: int): int { if a < b then a else b }
  function Max(a: int, b: int): int { if a < b then b else a }

  /** How much of [a, b) lies in [c, d). */
  function Overlap(a: int, b: int, c: int, d: int): nat
  {
    Max(0, Min(b, d) - Max(a, c))
  }

  /**
   What sample `n` contributes to a bit starting at time `q`: its share of the first
   half, less that of the second.
   */
  function Weight(n: nat, q: nat): int
  {
    Overlap(5 * n, 5 * n + 5, q, q + 6) - Overlap(5 * n, 5 * n + 5, q + 6, q + 12)
  }

  function Correlation(m: seq<int>, q: nat, n: nat): int
    requires n <= |m|
  {
    if n == 0 then 0 else Correlation(m, q, n - 1) + Weight(n - 1, q) * m[n - 1]
  }

  /** Samples the bit does not touch contribute nothing. */
  lemma {:induction false} Untouched(m: seq<int>, q: nat, a: nat, n: nat)
    requires a <= n <= |m|
    requires forall k :: a <= k < n ==> 5 * k + 5 <= q || q + 12 <= 5 * k
    ensures Correlation(m, q, n) == Correlation(m, q, a)
  {
    if a < n {
      Untouched(m, q, a, n - 1);
      NoWeight(n - 1, q);
    }
  }

  lemma NoWeight(n: nat, q: nat)
    requires 5 * n + 5 <= q || q + 12 <= 5 * n
    ensures Weight(n, q) == 0
  {
  }

  // ---------------------------------------------------------------------
  // The five slicers
  // ---------------------------------------------------------------------

  function Reach(phase: nat): nat { if phase == 4 then 4 else 3 }

  function Slice(phase: nat, m: seq<int>, p: nat): int
    requires phase < 5 && p + Reach(phase) <= |m|
  {
    match phase
    case 0 => 5 * m[p] - 3 * m[p + 1] - 2 * m[p + 2]
    case 1 => 4 * m[p] - m[p + 1] - 3 * m[p + 2]
    case 2 => 3 * m[p] + m[p + 1] - 4 * m[p + 2]
    case 3 => 2 * m[p] + 3 * m[p + 1] - 5 * m[p + 2]
    case _ => m[p] + 5 * m[p + 1] - 5 * m[p + 2] - m[p + 3]
  }

  /** The weights of a bit over the samples it touches. */
  function Weights(phase: nat): seq<int>
    requires phase < 5
  {
    match phase
    case 0 => [5, -3, -2]
    case 1 => [4, -1, -3]
    case 2 => [3, 1, -4]
    case 3 => [2, 3, -5]
    case _ => [1, 5, -5, -1]
  }

  lemma WeightsAreShares(phase: nat, p: nat, k: nat)
    requires phase < 5 && k < Reach(phase)
    ensures Weight(p + k, 5 * p + phase) == Weights(phase)[k]
  {
  }

  /** Each slicer is the exact correlation with a bit starting at its phase within a sample. */
  lemma SliceIsCorrelation(phase: nat, m: seq<int>, p: nat)
    requires phase < 5 && p + Reach(phase) <= |m|
    ensures Slice(phase, m, p) == Correlation(m, 5 * p + phase, |m|)
  {
    WindowSum(phase, m, p, 5 * p + phase);
    SliceIsTerms(phase, m, p);
  }

  lemma SliceIsTerms(phase: nat, m: seq<int>, p: nat)
    requires phase < 5 && p + Reach(phase) <= |m|
    ensures Slice(phase, m, p)
         == Term(phase, m, p, 0) + Term(phase, m, p, 1) + Term(phase, m, p, 2)
            + if phase == 4 then Term(phase, m, p, 3) else 0
  {
    TermIs(phase, m, p, 0, Weights(phase)[0]);
    TermIs(phase, m, p, 1, Weights(phase)[1]);
    TermIs(phase, m, p, 2, Weights(phase)[2]);
    if phase == 4 {
      TermIs(phase, m, p, 3, Weights(phase)[3]);
    }
  }

  lemma TermIs(phase: nat, m: seq<int>, p: nat, k: nat, w: int)
    requires phase < 5 && p + Reach(phase) <= |m| && k < Reach(phase) && w == Weights(phase)[k]
    ensures Term(phase, m, p, k) == w * m[p + k]
  {
  }

  /** The samples a bit touches, each with its weight. */
  function Term(phase: nat, m: seq<int>, p: nat, k: nat): int
    requires phase < 5 && p + Reach(phase) <= |m| && k < Reach(phase)
  {
    Weights(phase)[k] * m[p + k]
  }

  lemma WindowSum(phase: nat, m: seq<int>, p: nat, q: nat)
    requires phase < 5 && p + Reach(phase) <= |m| && q == 5 * p + phase
    ensures Correlation(m, q, |m|)
         == Term(phase, m, p, 0) + Term(phase, m, p, 1) + Term(phase, m, p, 2)
            + if phase == 4 then Term(phase, m, p, 3) else 0
  {
    Untouched(m, q, 0, p);
    Untouched(m, q, p + Reach(phase), |m|);
    Step(phase, m, p, q, 0);
    Step(phase, m, p, q, 1);
    Step(phase, m, p, q, 2);
    if phase == 4 {
      Step(phase, m, p, q, 3);
    }
  }

  lemma Step(phase: nat, m: seq<int>, p: nat, q: nat, k: nat)
    requires phase < 5 && p + Reach(phase) <= |m| && q == 5 * p + phase && k < Reach(phase)
    ensures Correlation(m, q, p + k + 1) == Correlation(m, q, p + k) + Term(phase, m, p, k)
  {
    WeightsAreShares(phase, p, k);
  }

  // ---------------------------------------------------------------------
  // Slicing a byte: where each bit is taken from, by the phase it starts at
  // ---------------------------------------------------------------------

  /** The sample offset and the slicer of each of the eight bits. */
  function Layout(phase: nat): (layout: seq<(nat, nat)>)
    requires phase < 5
    ensures |layout| == 8
    ensures forall b :: 0 <= b < 8 ==> layout[b].1 < 5 && 5 * layout[b].0 + layout[b].1 == phase + BIT * b
  {
    match phase
    case 0 => [(0, 0), (2, 2), (4, 4), (7, 1), (9, 3), (12, 0), (14, 2), (16, 4)]
    case 1 => [(0, 1), (2, 3), (5, 0), (7, 2), (9, 4), (12, 1), (14, 3), (17, 0)]
    case 2 => [(0, 2), (2, 4), (5, 1), (7, 3), (10, 0), (12, 2), (14, 4), (17, 1)]
    case 3 => [(0, 3), (3, 0), (5, 2), (7, 4), (10, 1), (12, 3), (15, 0), (17, 2)]
    case _ => [(0, 4), (3, 1), (5, 3), (8, 0), (10, 2), (12, 4), (15, 1), (17, 3)]
  }

  /** How far the read position moves for the next byte, and the phase that starts at. */
  function NextByte(phase: nat): (step: (nat, nat))
    requires phase < 5
    ensures step.1 < 5 && 5 * step.0 + step.1 == phase + 8 * BIT
  {
    if phase == 4 then (20, 0) else (19, phase + 1)
  }

  /** The value of the bit starting at time `q` after the start of the window. */
  predicate BitAt(m: seq<int>, q: nat)
  {
    Correlation(m, q, |m|) > 0
  }

  method SliceByte(m: seq<int>, p: nat, phase: nat) returns (bits: seq<bool>)
    requires phase < 5 && 5 * p + phase + 8 * BIT <= 5 * WINDOW && |m| >= WINDOW
    ensures |bits| == 8 && forall b :: 0 <= b < 8 ==> bits[b] == BitAt(m, 5 * p + phase + BIT * b)
  {
    bits := [];
    var layout := Layout(phase);
    for b := 0 to 8
      invariant |bits| == b
      invariant forall k :: 0 <= k < b ==> bits[k] == BitAt(m, 5 * p + phase + BIT * k)
    {
      var (offset, slicer) := layout[b];
      InWindow(p + offset, slicer, 5 * p + phase + BIT * b);
      SliceIsCorrelation(slicer, m, p + offset);
      bits := bits + [Slice(slicer, m, p + offset) > 0];
    }
  }

  /** A bit that ends within the window is sliced within it. */
  lemma InWindow(p: nat, phase: nat, q: nat)
    requires phase < 5 && q == 5 * p + phase && q + BIT <= 5 * WINDOW
    ensures p + Reach(phase) <= WINDOW
  {
  }

  /** Bytes of a message, by what its first byte announces: one for an unknown format, else seven or fourteen. */
  predicate ByteLength(n: nat) { n == 1 || n == 7 || n == 14 }

  /**
   One trial phase over a window of samples: bit `i` is the correlation at time
   95 + tryPhase + 12 i, and nothing beyond sample 289 is looked at.
   */
  method SliceMessage(m: seq<int>, tryPhase: nat, announced: seq<bool> -> nat) returns (bits: seq<bool>)
    requires 4 <= tryPhase <= 8 && |m| >= WINDOW
    requires forall first :: ByteLength(announced(first))
    ensures |bits| >= 8 && |bits| == 8 * announced(bits[..8])
    ensures forall i :: 0 <= i < |bits| ==> bits[i] == BitAt(m, FIRST_BIT + tryPhase + BIT * i)
  {
    var p: nat, phase: nat := 19 + tryPhase / 5, tryPhase % 5;
    var byteLen := 1;
    bits := [];
    var i := 0;
    while i < byteLen
      invariant i <= byteLen && |bits| == 8 * i
      invariant if i == 0 then byteLen == 1 else byteLen == announced(bits[..8])
      invariant ByteLength(byteLen)
      invariant phase < 5 && 5 * p + phase == FIRST_BIT + tryPhase + 8 * BIT * i
      invariant forall k :: 0 <= k < |bits| ==> bits[k] == BitAt(m, FIRST_BIT + tryPhase + BIT * k)
      decreases 14 - i
    {
      var byte := SliceByte(m, p, phase);
      ghost var before := bits;
      bits := bits + byte;
      p, phase := p + NextByte(phase).0, NextByte(phase).1;
      if i == 0 {
        assert bits[..8] == byte;
        byteLen := announced(byte);
      }
      assert i > 0 ==> bits[..8] == before[..8];
      i := i + 1;
    }
  }

  /** The guard is tight: no bit of any trial phase ends beyond the window, and the last one needs its last sample. */
  lemma GuardIsTight(tryPhase: nat, i: nat)
    requires 4 <= tryPhase <= 8 && i < 112
    ensures FIRST_BIT + tryPhase + BIT * i + BIT <= 5 * WINDOW
    ensures Weight(WINDOW - 1, FIRST_BIT + tryPhase + BIT * i) != 0 <==> i == 111 && tryPhase >= 7
  {
  }
}
