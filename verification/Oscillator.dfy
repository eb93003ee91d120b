/**
 The numerically controlled oscillator in exact arithmetic.  Phases are counted
 in turns (radians over 2 pi), so wrapping subtracts or adds one.
 */
module Oscillator {
  import opened Arith

  /** Whether two phases differ by whole turns. */
  predicate SameTurn(a: real, b: real)
  {
    a - b == (a - b).Floor as real
  }

  predicate HalfTurn(phase: real) { -0.5 <= phase <= 0.5 }

  lemma SameTurnBy(a: real, b: real, k: int)
    requires a == b + k as real
    ensures SameTurn(a, b)
  {
  }

  lemma SameTurnShifted(a: real, b: real, shift: real)
    requires SameTurn(a, b)
    ensures SameTurn(a + shift, b + shift)
  {
    assert (a + shift) - (b + shift) == a - b;
  }

  lemma SameTurnTransitive(a: real, b: real, c: real)
    requires SameTurn(a, b) && SameTurn(b, c)
    ensures SameTurn(a, c)
  {
    SameTurnBy(a, c, (a - b).Floor + (b - c).Floor);
  }

  /** The exact phase of the oscillator at an absolute source sample. */
  function PhaseAt(offset: int, index: int, rate: nat): real
    requires rate > 0
  {
    -(offset * index) as real / rate as real
  }

  /** The step of the phase per sample of a stream taking every `stride`-th source sample. */
  function StepPerSample(offset: int, stride: nat, rate: nat): real
    requires rate > 0
  {
    -(offset * stride) as real / rate as real
  }

  lemma PhaseAdvances(offset: int, index: int, stride: nat, rate: nat)
    requires rate > 0
    ensures PhaseAt(offset, index + stride, rate) == PhaseAt(offset, index, rate) + StepPerSample(offset, stride, rate)
  {
    assert offset * (index + stride) == offset * index + offset * stride;
    QuotientOfSum(-(offset * index) as real, -(offset * stride) as real, rate as real);
  }

  lemma QuotientOfSum(a: real, b: real, d: real)
    requires d != 0.0
    ensures (a + b) / d == a / d + b / d
  {
  }

  /** The phase within a turn, computed exactly from integers. */
  function IntegerCycles(offset: int, index: nat, rate: nat): real
    requires rate > 0
  {
    ((-offset * index) % rate) as real / rate as real
  }

  /** The same phase by the fractional part of a real quotient. */
  function RealCycles(offset: int, index: nat, rate: nat): real
    requires rate > 0
  {
    var cycles := -offset as real / rate as real * index as real;
    cycles - cycles.Floor as real
  }

  /** The exact integer form and the general form seek to the same phase. */
  lemma SeekFormsAgree(offset: int, index: nat, rate: nat)
    requires rate > 0
    ensures IntegerCycles(offset, index, rate) == RealCycles(offset, index, rate)
    ensures 0.0 <= IntegerCycles(offset, index, rate) < 1.0
    ensures SameTurn(IntegerCycles(offset, index, rate), PhaseAt(offset, index, rate))
  {
    var n := -offset * index;
    assert -(offset * index) == n;
    DivisionInReals(n, rate);
    assert -offset as real / rate as real * index as real == n as real / rate as real by {
      RealProduct(-offset, index);
      QuotientOfProduct(-offset as real, index as real, rate as real);
    }
    SameTurnBy(IntegerCycles(offset, index, rate), n as real / rate as real, -(n / rate));
  }

  lemma QuotientOfProduct(a: real, b: real, d: real)
    requires d != 0.0
    ensures a / d * b == a * b / d
  {
    var q := a / d;
    assert d * q == a by { Quotient(a, d); }
    assert a * b == d * (q * b);
    assert d * (q * b) / d == q * b;
  }

  /** A real quotient of integers is the integer quotient plus a proper fraction. */
  lemma DivisionInReals(n: int, rate: nat)
    requires rate > 0
    ensures 0.0 <= (n % rate) as real / rate as real < 1.0
    ensures n as real / rate as real == (n / rate) as real + (n % rate) as real / rate as real
    ensures (n as real / rate as real).Floor == n / rate
  {
    var q, m, r := n / rate, n % rate, rate as real;
    ProperFraction(m as real, r);
    assert n as real == r * q as real + m as real by { RealProduct(rate, q); }
    QuotientOfSum(r * q as real, m as real, r);
    assert r * q as real / r == q as real;
  }

  /** The phase `i` steps on, without wrapping. */
  function Ahead(phase: real, increment: real, i: nat): real
  {
    if i == 0 then phase else Ahead(phase, increment, i - 1) + increment
  }

  /** Each phase is the one that many steps on, give or take whole turns. */
  ghost predicate Tracks(phases: seq<real>, start: real, increment: real)
  {
    forall i :: 0 <= i < |phases| ==> SameTurn(phases[i], Ahead(start, increment, i))
  }

  predicate AllHalfTurn(phases: seq<real>)
  {
    forall i :: 0 <= i < |phases| ==> HalfTurn(phases[i])
  }

  lemma TracksGrows(phases: seq<real>, phase: real, start: real, increment: real)
    requires Tracks(phases, start, increment) && SameTurn(phase, Ahead(start, increment, |phases|))
    ensures Tracks(phases + [phase], start, increment)
    ensures AllHalfTurn(phases) && HalfTurn(phase) ==> AllHalfTurn(phases + [phase])
  {
  }

  class Nco {
    var phase: real
    const increment: real
    const offset: int

    constructor (offset: int, stride: nat, rate: nat)
      requires rate > 0
      ensures phase == 0.0 && this.offset == offset && increment == StepPerSample(offset, stride, rate)
    {
      this.offset := offset;
      increment := StepPerSample(offset, stride, rate);
      phase := 0.0;
    }

    /** Set the phase belonging to an absolute source sample. */
    method Seek(index: nat, rate: nat)
      requires rate > 0
      modifies this
      ensures SameTurn(phase, PhaseAt(offset, index, rate)) && HalfTurn(phase)
    {
      SeekFormsAgree(offset, index, rate);
      phase := IntegerCycles(offset, index, rate);
      if phase > 0.5 {
        SameTurnShifted(phase, PhaseAt(offset, index, rate), -1.0);
        SameTurnBy(PhaseAt(offset, index, rate) - 1.0, PhaseAt(offset, index, rate), -1);
        SameTurnTransitive(phase - 1.0, PhaseAt(offset, index, rate) - 1.0, PhaseAt(offset, index, rate));
        phase := phase - 1.0;
      }
    }

    /** One sample on, brought back within half a turn by at most one turn. */
    method Advance()
      modifies this
      ensures SameTurn(phase, old(phase) + increment)
      ensures HalfTurn(increment) && HalfTurn(old(phase)) ==> HalfTurn(phase)
    {
      phase := phase + increment;
      ghost var moved := phase;
      if phase > 0.5 {
        phase := phase - 1.0;
        SameTurnBy(phase, moved, -1);
      } else if phase < -0.5 {
        phase := phase + 1.0;
        SameTurnBy(phase, moved, 1);
      }
    }

    /** The phases used for the next `n` samples. */
    method Mix(n: nat) returns (phases: seq<real>)
      modifies this
      ensures |phases| == n
      ensures Tracks(phases, old(phase), increment)
      ensures SameTurn(phase, Ahead(old(phase), increment, n))
      ensures HalfTurn(increment) && HalfTurn(old(phase)) ==> HalfTurn(phase) && AllHalfTurn(phases)
    {
      phases := [];
      ghost var start := phase;
      for k := 0 to n
        invariant |phases| == k
        invariant Tracks(phases, start, increment)
        invariant SameTurn(phase, Ahead(start, increment, k))
        invariant HalfTurn(increment) && HalfTurn(start) ==> HalfTurn(phase) && AllHalfTurn(phases)
      {
        ghost var before, exact := phase, Ahead(start, increment, k);
        TracksGrows(phases, phase, start, increment);
        phases := phases + [phase];
        Advance();
        AheadStep(start, increment, k);
        SameTurnShifted(before, exact, increment);
        SameTurnTransitive(phase, before + increment, exact + increment);
      }
    }
  }

  lemma AheadStep(phase: real, increment: real, i: nat)
    ensures Ahead(phase, increment, i + 1) == Ahead(phase, increment, i) + increment
  {
  }

  /** Stepping from one source sample's phase reaches every later sample's phase. */
  lemma {:induction false} AheadIsPhaseAt(phase: real, offset: int, index: nat, stride: nat, rate: nat, i: nat)
    requires rate > 0 && SameTurn(phase, PhaseAt(offset, index, rate))
    ensures SameTurn(Ahead(phase, StepPerSample(offset, stride, rate), i), PhaseAt(offset, index + i * stride, rate))
  {
    if i == 0 {
      assert index + i * stride == index;
    } else {
      var step := StepPerSample(offset, stride, rate);
      AheadIsPhaseAt(phase, offset, index, stride, rate, i - 1);
      PhaseAdvances(offset, index + (i - 1) * stride, stride, rate);
      SameTurnShifted(Ahead(phase, step, i - 1), PhaseAt(offset, index + (i - 1) * stride, rate), step);
      assert index + (i - 1) * stride + stride == index + i * stride;
    }
  }

  /** The step is at most half a turn exactly within Nyquist. */
  lemma StepWithinNyquist(offset: int, stride: nat, rate: nat)
    requires rate > 0
    ensures HalfTurn(StepPerSample(offset, stride, rate)) <==> 0 - rate <= 2 * (offset * stride) <= rate
  {
    var r, n := rate as real, -(offset * stride) as real;
    var step := n / r;
    assert r * step == n by { Quotient(n, r); }
    ScaledCompare(step, 0.5, r, n);
    ScaledCompare(step, -0.5, r, n);
  }
}
