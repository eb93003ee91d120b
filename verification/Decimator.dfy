/**
 The multistage decimator: half-band stages followed by a phase-selected FIR
 that emits at exact source offsets first + k D.
 */
module Decimator {
  import opened Wrappers
  import opened Arith
  import opened Filters

  // ---------------------------------------------------------------------
  // Reference: the stream seen after each stage
  // ---------------------------------------------------------------------

  /** A half-band stage keeps the filtered value at every even index. */
  function HalfBandStream(taps: seq<real>, x: seq<real>): (y: seq<real>)
    ensures |y| == (|x| + 1) / 2
  {
    seq((|x| + 1) / 2, i requires 0 <= i < (|x| + 1) / 2 => Fir(taps, x[..2 * i + 1]))
  }

  /** The stream after `j` identical half-band stages. */
  function StageStream(taps: seq<real>, j: nat, x: seq<real>): seq<real>
  {
    if j == 0 then x else HalfBandStream(taps, StageStream(taps, j - 1, x))
  }

  lemma HalfBandGrows(taps: seq<real>, x: seq<real>, s: real)
    ensures HalfBandStream(taps, x + [s])
         == HalfBandStream(taps, x) + if |x| % 2 == 0 then [Fir(taps, x + [s])] else []
  {
    var y, z := HalfBandStream(taps, x), HalfBandStream(taps, x + [s]);
    forall i | 0 <= i < |y| ensures z[i] == y[i] {
      assert (x + [s])[..2 * i + 1] == x[..2 * i + 1];
    }
    if |x| % 2 == 0 {
      assert (x + [s])[..|x| + 1] == x + [s];
    }
  }

  // ---------------------------------------------------------------------
  // Which source indices reach the final filter
  // ---------------------------------------------------------------------

  /** After `j` halvings, one value remains for every 2^j samples begun. */
  lemma {:induction false} StageLength(taps: seq<real>, j: nat, x: seq<real>)
    ensures |StageStream(taps, j, x)| == CeilDiv(|x|, Pow2(j))
  {
    if j > 0 {
      StageLength(taps, j - 1, x);
      var p, q := Pow2(j - 1), CeilDiv(|x|, Pow2(j - 1));
      var r := (q + 1) / 2;
      CeilDivBounds(|x|, p);
      HalvedQuotient(|x|, p, q, r);
      CeilDivUnique(|x|, 2 * p, r);
    }
  }

  lemma HalvedQuotient(n: nat, p: nat, q: nat, r: nat)
    requires p >= 1 && p * q >= n && (q == 0 || p * (q - 1) < n) && r == (q + 1) / 2
    ensures 2 * p * r >= n && (r == 0 || 2 * p * (r - 1) < n)
  {
    assert q == 2 * r || q == 2 * r - 1;
    if q == 2 * r {
      assert 2 * p * r == p * q;
      if r > 0 {
        assert 2 * p * (r - 1) == p * (q - 1) - p;
      }
    } else {
      assert 2 * p * r == p * q + p;
      assert 2 * p * (r - 1) == p * (q - 1);
    }
  }

  /** Stage `j` passes exactly the source indices divisible by 2^j. */
  lemma StagePasses(taps: seq<real>, j: nat, x: seq<real>, s: real)
    ensures |StageStream(taps, j, x + [s])| == |StageStream(taps, j, x)| + if |x| % Pow2(j) == 0 then 1 else 0
  {
    StageLength(taps, j, x);
    StageLength(taps, j, x + [s]);
    CeilDivStep(|x|, Pow2(j));
  }

  // ---------------------------------------------------------------------
  // Reference: what is emitted, and when
  // ---------------------------------------------------------------------

  /** The decimation, the half-band response and its stage count, and the phase banks. */
  datatype Design = Design(decimation: nat, halfBand: seq<real>, stages: nat, banks: seq<seq<real>>, len: nat)

  predicate WellFormed(d: Design)
  {
    && d.decimation >= 1 && d.len >= 1 && |d.banks| >= 1
    && (d.decimation == 1 ==> d.stages == 0)
    && forall b :: 0 <= b < |d.banks| ==> |d.banks[b]| == d.len
  }

  /** The distance from source index `n` back to the last one the final filter received, in its own samples. */
  function Phase(stages: nat, n: nat): (phase: real)
    ensures 0.0 <= phase < 1.0
  {
    var p := Pow2(stages);
    ProperFraction((n % p) as real, p as real);
    (n % p) as real / p as real
  }

  /** The value emitted at the last sample of `x`. */
  function Emission(d: Design, x: seq<real>): real
    requires WellFormed(d) && x != []
  {
    if d.decimation == 1 then x[|x| - 1]
    else Fir(PhaseTaps(d.banks, d.len, Phase(d.stages, |x| - 1)), StageStream(d.halfBand, d.stages, x))
  }

  predicate Emits(decimation: nat, first: nat, n: nat)
    requires decimation >= 1
  {
    n >= first && (n - first) % decimation == 0
  }

  function Outputs(d: Design, first: nat, x: seq<real>): seq<real>
    requires WellFormed(d)
  {
    if x == [] then []
    else
      Outputs(d, first, x[..|x| - 1])
      + if Emits(d.decimation, first, |x| - 1) then [Emission(d, x)] else []
  }

  /** Exactly one output for every D samples from the first emitting one on. */
  lemma {:induction false} OutputCount(d: Design, first: nat, x: seq<real>)
    requires WellFormed(d)
    ensures |Outputs(d, first, x)| == if |x| <= first then 0 else CeilDiv(|x| - first, d.decimation)
  {
    if x != [] {
      OutputCount(d, first, x[..|x| - 1]);
      if |x| - 1 >= first {
        CeilDivStep(|x| - 1 - first, d.decimation);
        CeilDivBounds(0, d.decimation);
      }
    }
  }

  /** Output `k` is the value emitted at source index n = first + k D. */
  lemma {:induction false} OutputAt(d: Design, first: nat, x: seq<real>, k: nat, n: nat)
    requires WellFormed(d) && k < |Outputs(d, first, x)| && n == first + k * d.decimation
    ensures n < |x| && Outputs(d, first, x)[k] == Emission(d, x[..n + 1])
    ensures if d.decimation == 1 then Outputs(d, first, x)[k] == x[n]
            else Interpolates(d.banks, (n % Pow2(d.stages)) as real / Pow2(d.stages) as real,
                              StageStream(d.halfBand, d.stages, x[..n + 1]), Outputs(d, first, x)[k])
  {
    var before := x[..|x| - 1];
    if k < |Outputs(d, first, before)| {
      OutputAt(d, first, before, k, n);
      assert before[..n + 1] == x[..n + 1];
    } else {
      assert n == |x| - 1 by { LastEmission(d, first, before, k, n); }
      assert x[..n + 1] == x;
    }
    if d.decimation != 1 {
      PhaseInterpolates(d.banks, d.len, Phase(d.stages, n), StageStream(d.halfBand, d.stages, x[..n + 1]));
    }
  }

  /** The next index to emit after `x` outputs so far. */
  lemma LastEmission(d: Design, first: nat, x: seq<real>, k: nat, n: nat)
    requires WellFormed(d) && k == |Outputs(d, first, x)| && n == first + k * d.decimation
    requires Emits(d.decimation, first, |x|)
    ensures n == |x|
  {
    OutputCount(d, first, x);
    EmissionIndex(d.decimation, |x| - first, CeilDiv(|x| - first, d.decimation));
    CeilDivBounds(0, d.decimation);
  }

  lemma EmissionIndex(d: nat, n: nat, k: nat)
    requires d >= 1 && n % d == 0 && k == CeilDiv(n, d)
    ensures n == k * d
  {
    DivModUnique(n + d - 1, d, n / d, d - 1);
  }

  /** `n % p` is how long ago an index divisible by `p` was last seen. */
  lemma PhaseIsDistance(n: nat, p: nat, m: nat)
    requires p >= 1 && m <= n && m % p == 0
    ensures (n - n % p) % p == 0 && m <= n - n % p
  {
    var q, r := n / p, n % p;
    assert n - r == p * q;
    DivModUnique(n - r, p, q, 0);
    if m > n - r {
      assert m == p * q + (m - p * q);
      DivModUnique(m, p, q, m - p * q);
    }
  }

  /** When nothing new leaves stage `j`, nothing new leaves any later stage. */
  lemma {:induction false} LaterStagesAgree(taps: seq<real>, j: nat, k: nat, x: seq<real>, y: seq<real>)
    requires j <= k && StageStream(taps, j, x) == StageStream(taps, j, y)
    ensures StageStream(taps, k, x) == StageStream(taps, k, y)
  {
    if j < k {
      LaterStagesAgree(taps, j, k - 1, x, y);
    }
  }

  function Log2(n: nat): nat
    requires n >= 1
  {
    if n == 1 then 0 else 1 + Log2(n / 2)
  }

  /** The number of half-band stages leaves a ratio of at least four for the final filter. */
  function StageCount(decimation: nat): (stages: nat)
    requires decimation >= 1
    ensures decimation >= 8 ==> 4 * Pow2(stages) <= decimation < 8 * Pow2(stages)
    ensures decimation < 8 ==> stages == 0
  {
    if decimation < 8 then 0
    else
      Log2Bounds(decimation / 4);
      Log2(decimation / 4)
  }

  lemma {:induction false} Log2Bounds(n: nat)
    requires n >= 1
    ensures Pow2(Log2(n)) <= n < 2 * Pow2(Log2(n))
  {
    if n > 1 {
      Log2Bounds(n / 2);
    }
  }

  function Optional(value: Option<real>): seq<real>
  {
    if value.Some? then [value.value] else []
  }

  lemma OutputsGrow(d: Design, first: nat, x: seq<real>, s: real)
    requires WellFormed(d)
    ensures Outputs(d, first, x + [s])
         == Outputs(d, first, x) + if Emits(d.decimation, first, |x|) then [Emission(d, x + [s])] else []
  {
    assert (x + [s])[..|x|] == x;
  }

  /** Later input adds outputs and leaves the earlier ones. */
  lemma {:induction false} OutputsExtend(d: Design, first: nat, x: seq<real>, more: seq<real>)
    requires WellFormed(d)
    ensures Outputs(d, first, x) <= Outputs(d, first, x + more)
  {
    if more == [] {
      assert x + more == x;
    } else {
      var init, s := more[..|more| - 1], more[|more| - 1];
      OutputsExtend(d, first, x, init);
      OutputsGrow(d, first, x + init, s);
      assert x + more == x + init + [s];
    }
  }

  /**
   After `n` samples and `emitted` outputs, the next output is due `ahead`
   samples on, at the phase of its source index.
   */
  ghost predicate Timing(decimation: nat, factor: nat, first: nat, emitted: nat, n: nat, ahead: nat, phase: nat)
  {
    && decimation >= 1 && factor >= 1
    && n + ahead == first + emitted * decimation
    && (emitted > 0 ==> ahead < decimation)
    && phase == (n + ahead) % factor
  }

  function NextPhase(phase: nat, decimation: nat, factor: nat): nat
    requires factor >= 1
  {
    (phase + decimation % factor) % factor
  }

  lemma TimingEmits(decimation: nat, factor: nat, first: nat, emitted: nat, n: nat, phase: nat)
    requires Timing(decimation, factor, first, emitted, n, 0, phase)
    ensures phase == n % factor
    ensures Timing(decimation, factor, first, emitted + 1, n + 1, decimation - 1, NextPhase(phase, decimation, factor))
  {
    ModuloOfSum(n, decimation, factor);
    assert (emitted + 1) * decimation == emitted * decimation + decimation;
  }

  lemma TimingWaits(decimation: nat, factor: nat, first: nat, emitted: nat, n: nat, ahead: nat, phase: nat)
    requires Timing(decimation, factor, first, emitted, n, ahead, phase) && ahead > 0
    ensures Timing(decimation, factor, first, emitted, n + 1, ahead - 1, phase)
  {
  }

  /** Counting down to the next output tells exactly when one is due. */
  lemma DueWhenCountedDown(decimation: nat, factor: nat, first: nat, emitted: nat, n: nat, ahead: nat, phase: nat)
    requires Timing(decimation, factor, first, emitted, n, ahead, phase)
    ensures Emits(decimation, first, n) <==> ahead == 0
  {
    if ahead == 0 {
      DivModUnique(n - first, decimation, emitted, 0);
    } else if emitted > 0 {
      assert n - first == decimation * (emitted - 1) + (decimation - ahead);
      if n >= first {
        DivModUnique(n - first, decimation, emitted - 1, decimation - ahead);
      }
    }
  }

  lemma ModuloOfSum(a: nat, b: nat, m: nat)
    requires m >= 1
    ensures (a % m + b % m) % m == (a + b) % m
  {
    assert a + b == (a % m + b % m) + m * (a / m + b / m);
    DivModShift(a % m + b % m, m, a / m + b / m);
  }

  // ---------------------------------------------------------------------
  // The decimator
  // ---------------------------------------------------------------------

  /** How many outputs fall due in a call of `n` samples, and the distance left after it. */
  function DueCount(skip: nat, n: nat, decimation: nat): nat
    requires decimation >= 1
  {
    if n <= skip then 0 else CeilDiv(n - skip, decimation)
  }

  function SkipAfter(skip: nat, n: nat, decimation: nat): (left: nat)
    requires decimation >= 1
    ensures left + n == skip + DueCount(skip, n, decimation) * decimation
    ensures DueCount(skip, n, decimation) > 0 ==> left < decimation
  {
    if n > skip then
      CeilDivBounds(n - skip, decimation);
      skip + DueCount(skip, n, decimation) * decimation - n
    else skip - n
  }

  lemma DueCountUnique(skip: nat, n: nat, decimation: nat, count: nat, left: nat)
    requires decimation >= 1 && skip + count * decimation == n + left && (count > 0 ==> left < decimation)
    ensures count == DueCount(skip, n, decimation) && left == SkipAfter(skip, n, decimation)
  {
    if n > skip {
      if count > 0 {
        assert decimation * (count - 1) == count * decimation - decimation;
      }
      CeilDivUnique(n - skip, decimation, count);
    } else if count > 0 {
      MulGap(decimation, 0, count);
    }
  }

  /** Counting one sample at a time. */
  lemma DueStep(skip: nat, n: nat, decimation: nat)
    requires decimation >= 1
    ensures var ahead := SkipAfter(skip, n, decimation);
      DueCount(skip, n + 1, decimation) == DueCount(skip, n, decimation) + (if ahead == 0 then 1 else 0)
      && SkipAfter(skip, n + 1, decimation) == if ahead == 0 then decimation - 1 else ahead - 1
  {
    var ahead, count := SkipAfter(skip, n, decimation), DueCount(skip, n, decimation);
    if ahead == 0 {
      assert (count + 1) * decimation == count * decimation + decimation;
      DueCountUnique(skip, n + 1, decimation, count + 1, decimation - 1);
    } else {
      DueCountUnique(skip, n + 1, decimation, count, ahead - 1);
    }
  }

  method BuildStages(count: nat, paired: seq<real>, center: real)
    returns (built: seq<HalfBandStage>, ghost objects: set<object>)
    requires |paired| == 16
    ensures |built| == count && fresh(objects)
    ensures forall k :: 0 <= k < count ==>
      && built[k] in objects && built[k].ring in objects && built[k].ring.history in objects
      && built[k].paired == paired && built[k].center == center
      && built[k].Valid() && built[k].ring.past == []
    ensures forall k, l :: 0 <= k < l < count ==>
      built[k] != built[l] && built[k].ring != built[l].ring && built[k].ring.history != built[l].ring.history
  {
    built, objects := [], {};
    for i := 0 to count
      invariant |built| == i && fresh(objects)
      invariant forall k :: 0 <= k < i ==>
        && built[k] in objects && built[k].ring in objects && built[k].ring.history in objects
        && built[k].paired == paired && built[k].center == center
        && built[k].Valid() && built[k].ring.past == []
      invariant forall k, l :: 0 <= k < l < i ==>
        built[k] != built[l] && built[k].ring != built[l].ring && built[k].ring.history != built[l].ring.history
    {
      var stage := new HalfBandStage(paired, center);
      built := built + [stage];
      objects := objects + {stage, stage.ring, stage.ring.history};
    }
  }

  class FirDecimator {
    const decimation: nat
    const stages: seq<HalfBandStage>
    const stageFactor: nat
    const filter: PhaseFilter?
    var skip: nat
    var outputPhase: nat
    ghost const design: Design
    ghost const repr: set<object>
    ghost const stageObjects: set<object>
    /** Everything processed since the last reset, the first index to emit, and how many were emitted. */
    ghost var input: seq<real>
    ghost var first: nat
    ghost var emitted: nat

    /** The fixed structure: separate stages and rings, all owned. */
    ghost predicate Shape()
    {
      && WellFormed(design) && decimation == design.decimation && |stages| == design.stages
      && stageFactor == Pow2(|stages|)
      && this in repr && stageObjects <= repr && this !in stageObjects
      && (forall i :: 0 <= i < |stages| ==> StageShape(i))
      && (forall i, j :: 0 <= i < |stages| && 0 <= j < |stages| && i != j ==> Separate(i, j))
      && (filter == null <==> decimation == 1)
      && (filter != null ==>
            filter.ring in repr - stageObjects && filter.ring.history in repr - stageObjects
            && filter.banks == design.banks && filter.ring.len == design.len)
    }

    ghost predicate Separate(i: nat, j: nat)
      requires i < |stages| && j < |stages|
    {
      stages[i] != stages[j] && stages[i].ring != stages[j].ring && stages[i].ring.history != stages[j].ring.history
    }

    ghost predicate StageShape(i: nat)
      requires i < |stages|
    {
      && stages[i] in stageObjects && stages[i].ring in stageObjects && stages[i].ring.history in stageObjects
      && |stages[i].paired| == 16 && HalfBandTaps(stages[i].paired, stages[i].center) == design.halfBand
      && stages[i].ring.len == HALF_BAND_TAPS && stages[i].ring.history.Length == 2 * HALF_BAND_TAPS
    }

    /** Stages from `lo` up to `hi` hold the history of `x`. */
    ghost predicate StagesHold(lo: nat, hi: nat, x: seq<real>)
      requires Shape() && lo <= hi <= |stages|
      reads stageObjects
    {
      forall i :: lo <= i < hi ==> StageHolds(i, x)
    }

    ghost predicate StageHolds(i: nat, x: seq<real>)
      requires i < |stages| && StageShape(i)
      reads stages[i], stages[i].ring, stages[i].ring.history
    {
      stages[i].Valid() && stages[i].ring.past == StageStream(design.halfBand, i, x)
    }

    ghost predicate StageSilent(i: nat)
      requires i < |stages| && StageShape(i)
      reads stages[i], stages[i].ring, stages[i].ring.history
    {
      stages[i].Valid() && stages[i].ring.past == []
    }

    ghost predicate FilterHolds(x: seq<real>)
      requires Shape()
      reads if filter == null then {} else {filter.ring, filter.ring.history}
    {
      filter != null ==> filter.Valid() && filter.ring.past == StageStream(design.halfBand, |stages|, x)
    }

    /** With `ahead` samples to go before the next output. */
    ghost predicate Ready(ahead: nat)
      reads this, repr
    {
      && Shape() && StagesHold(0, |stages|, input) && FilterHolds(input)
      && (filter != null ==> Timing(decimation, stageFactor, first, emitted, |input|, ahead, outputPhase))
      && (filter == null ==> first == 0)
    }

    ghost predicate Valid()
      reads this, repr
    {
      Ready(skip)
    }

    /** One sample through stage `j`; the other stages are untouched. */
    method PushStage(j: nat, sample: real, ghost x: seq<real>, ghost y: seq<real>) returns (value: Option<real>)
      requires Shape() && j < |stages|
      requires StagesHold(0, j, y) && StagesHold(j, |stages|, x)
      requires StageStream(design.halfBand, j, y) == StageStream(design.halfBand, j, x) + [sample]
      modifies stages[j], stages[j].ring, stages[j].ring.history
      ensures StagesHold(0, j + 1, y) && StagesHold(j + 1, |stages|, x)
      ensures StageStream(design.halfBand, j + 1, y) == StageStream(design.halfBand, j + 1, x) + Optional(value)
    {
      assert StageShape(j) && StageHolds(j, x);
      HalfBandGrows(design.halfBand, StageStream(design.halfBand, j, x), sample);
      value := stages[j].Push(sample);
      assert StageHolds(j, y);
      forall i | 0 <= i < |stages| && i != j ensures StageShape(i) && (old(StageHolds(i, x)) ==> StageHolds(i, x))
                                                  && (old(StageHolds(i, y)) ==> StageHolds(i, y)) {
        assert StageShape(i) && Separate(i, j);
      }
    }

    /** One sample through the half-band stages, stopping where it is dropped. */
    method PushStages(sample: real) returns (value: Option<real>)
      requires Shape() && StagesHold(0, |stages|, input)
      modifies stageObjects
      ensures StagesHold(0, |stages|, input + [sample])
      ensures StageStream(design.halfBand, |stages|, input + [sample])
           == StageStream(design.halfBand, |stages|, input) + Optional(value)
    {
      ghost var x, y := input, input + [sample];
      value := Some(sample);
      var j := 0;
      while j < |stages| && value.Some?
        invariant j <= |stages|
        invariant StagesHold(0, j, y) && StagesHold(j, |stages|, x)
        invariant StageStream(design.halfBand, j, y) == StageStream(design.halfBand, j, x) + Optional(value)
      {
        assert StageShape(j);
        value := PushStage(j, value.value, x, y);
        j := j + 1;
      }
      if j < |stages| {
        RestUnchanged(j, x, y);
      }
    }

    lemma RestUnchanged(j: nat, x: seq<real>, y: seq<real>)
      requires Shape() && j < |stages| && StagesHold(0, j, y) && StagesHold(j, |stages|, x)
      requires StageStream(design.halfBand, j, y) == StageStream(design.halfBand, j, x)
      ensures StagesHold(0, |stages|, y)
      ensures StageStream(design.halfBand, |stages|, y) == StageStream(design.halfBand, |stages|, x)
    {
      LaterStagesAgree(design.halfBand, j, |stages|, x, y);
      forall i | j <= i < |stages| ensures StageHolds(i, y) {
        assert StageHolds(i, x);
        LaterStagesAgree(design.halfBand, j, i, x, y);
      }
    }

    constructor (paired: seq<real>, center: real, decimation: nat, banks: seq<seq<real>>, len: nat)
      requires |paired| == 16 && decimation >= 1
      requires WellFormed(Design(decimation, HalfBandTaps(paired, center), StageCount(decimation), banks, len))
      ensures Valid() && fresh(repr - {this}) && input == [] && first == 0 && this.decimation == decimation
      ensures design == Design(decimation, HalfBandTaps(paired, center), StageCount(decimation), banks, len)
    {
      var count := StageCount(decimation);
      var built: seq<HalfBandStage>;
      ghost var objects: set<object>;
      built, objects := BuildStages(count, paired, center);
      var last: PhaseFilter? := null;
      ghost var rings: set<object> := {};
      if decimation > 1 {
        last := new PhaseFilter(banks, len);
        rings := {last.ring, last.ring.history};
      }
      this.decimation, this.stages, this.stageFactor := decimation, built, Pow2(count);
      this.filter := last;
      this.design := Design(decimation, HalfBandTaps(paired, center), count, banks, len);
      this.stageObjects := objects;
      this.repr := objects + rings + {this};
      skip, outputPhase := 0, 0;
      input, first, emitted := [], 0, 0;
      new;
      assert Shape();
      SilentStages(design.halfBand, |stages|);
      forall i | 0 <= i < |stages| ensures StageStream(design.halfBand, i, []) == [] {
        SilentStages(design.halfBand, i);
      }
      assert StagesHold(0, |stages|, []);
      assert Timing(decimation, stageFactor, 0, 0, 0, 0, 0);
    }

    /** Clear every history; the first output is due at this offset in the new input. */
    method Reset(firstOffset: nat)
      requires Valid()
      modifies repr
      ensures Valid() && input == [] && first == if filter == null then 0 else firstOffset
    {
      skip := firstOffset;
      outputPhase := firstOffset % stageFactor;
      input, emitted := [], 0;
      first := if filter == null then 0 else firstOffset;
      for i := 0 to |stages|
        modifies stageObjects
        invariant Shape()
        invariant forall k :: 0 <= k < i ==> StageSilent(k)
      {
        assert StageShape(i);
        label Before:
        stages[i].Reset();
        forall k | 0 <= k < i ensures StageSilent(k) {
          assert StageShape(k) && Separate(k, i) && old@Before(StageSilent(k));
        }
      }
      label Silent:
      if filter != null {
        filter.ring.Clear();
      }
      forall i | 0 <= i < |stages| ensures StageHolds(i, []) {
        SilentStages(design.halfBand, i);
        assert StageShape(i) && old@Silent(StageSilent(i));
      }
      SilentStages(design.halfBand, |stages|);
    }

    /** Take one sample into the stages and the final filter. */
    method Accept(sample: real)
      requires Shape() && filter != null && StagesHold(0, |stages|, input) && FilterHolds(input)
      modifies stageObjects, filter.ring, filter.ring.history, this`input
      ensures input == old(input) + [sample]
      ensures StagesHold(0, |stages|, input) && FilterHolds(input)
    {
      var value := PushStages(sample);
      if value.Some? {
        filter.ring.Push(value.value);
      }
      input := input + [sample];
    }

    /** Emit at the sample just accepted, and aim at the one D samples later. */
    method Emit() returns (y: real)
      requires Shape() && filter != null && StagesHold(0, |stages|, input) && FilterHolds(input)
      requires input != [] && outputPhase == (|input| - 1) % stageFactor
      modifies this`outputPhase
      ensures y == Emission(design, input)
      ensures outputPhase == NextPhase(old(outputPhase), decimation, stageFactor)
    {
      y := filter.Output(OutputPhase());
      outputPhase := NextPhase(outputPhase, decimation, stageFactor);
    }

    /** One source sample, with `ahead` more to come before the next output. */
    method Step(sample: real, ahead: nat) returns (output: seq<real>, left: nat)
      requires Ready(ahead) && filter != null
      modifies stageObjects, filter.ring, filter.ring.history, this`input, this`outputPhase, this`emitted
      ensures Ready(left)
      ensures left == (if ahead == 0 then decimation - 1 else ahead - 1) && |output| == if ahead == 0 then 1 else 0
      ensures input == old(input) + [sample]
      ensures Outputs(design, first, input) == Outputs(design, first, old(input)) + output
    {
      OutputsGrow(design, first, input, sample);
      DueWhenCountedDown(decimation, stageFactor, first, emitted, |input|, ahead, outputPhase);
      if ahead == 0 {
        TimingEmits(decimation, stageFactor, first, emitted, |input|, outputPhase);
        Accept(sample);
        var y := Emit();
        emitted := emitted + 1;
        output, left := [y], decimation - 1;
      } else {
        TimingWaits(decimation, stageFactor, first, emitted, |input|, ahead, outputPhase);
        Accept(sample);
        output, left := [], ahead - 1;
      }
    }

    method Copy(samples: seq<real>) returns (output: seq<real>)
      requires Valid() && filter == null
      modifies this`input
      ensures Valid() && input == old(input) + samples && |output| == |samples|
      ensures Outputs(design, first, input) == Outputs(design, first, old(input)) + output
    {
      PassThrough(design, input, samples);
      input := input + samples;
      output := samples;
    }

    /**
     However the stream is cut into calls, the outputs are those of the
     reference: one at every source index first + k D, and no others.
     */
    method Process(samples: seq<real>) returns (output: seq<real>)
      requires Valid()
      modifies repr
      ensures Valid()
      ensures input == old(input) + samples && first == old(first)
      ensures Outputs(design, first, input) == Outputs(design, first, old(input)) + output
      ensures decimation > 1 || old(skip) == 0 ==>
                |output| == DueCount(old(skip), |samples|, decimation)
                    && skip == SkipAfter(old(skip), |samples|, decimation)
    {
      if filter == null {
        DueCountUnique(0, |samples|, 1, |samples|, 0);
        output := Copy(samples);
        return;
      }
      output, skip := Scan(samples);
    }

    /** The samples of one call in order, and the distance left to the next output. */
    method Scan(samples: seq<real>) returns (output: seq<real>, left: nat)
      requires Valid() && filter != null
      modifies stageObjects, filter.ring, filter.ring.history, this`input, this`outputPhase, this`emitted
      ensures Ready(left)
      ensures input == old(input) + samples
      ensures Outputs(design, first, input) == Outputs(design, first, old(input)) + output
      ensures |output| == DueCount(skip, |samples|, decimation) && left == SkipAfter(skip, |samples|, decimation)
    {
      output := [];
      var next := skip;
      ghost var x, y := input, Outputs(design, first, input);
      for n := 0 to |samples|
        invariant next >= n && Ready(next - n)
        invariant |output| == DueCount(skip, n, decimation) && next - n == SkipAfter(skip, n, decimation)
        invariant input == x + samples[..n]
        invariant Outputs(design, first, input) == y + output
      {
        DueStep(skip, n, decimation);
        var emitted, left := Step(samples[n], next - n);
        Regroup(y, output, emitted);
        assert samples[..n + 1] == samples[..n] + [samples[n]];
        output := output + emitted;
        next := n + 1 + left;
      }
      assert samples[..|samples|] == samples;
      left := next - |samples|;
    }

    function OutputPhase(): (phase: real)
      requires stageFactor >= 1 && outputPhase < stageFactor
      reads this
      ensures 0.0 <= phase < 1.0
    {
      ProperFraction(outputPhase as real, stageFactor as real);
      outputPhase as real / stageFactor as real
    }
  }

  lemma {:induction false} SilentStages(taps: seq<real>, j: nat)
    ensures StageStream(taps, j, []) == []
  {
    if j > 0 {
      SilentStages(taps, j - 1);
    }
  }

  lemma Regroup<T>(a: seq<T>, b: seq<T>, c: seq<T>)
    ensures a + b + c == a + (b + c)
  {
  }

  /** Factor one is exact passthrough. */
  lemma {:induction false} PassThrough(d: Design, x: seq<real>, y: seq<real>)
    requires WellFormed(d) && d.decimation == 1
    ensures Outputs(d, 0, x + y) == Outputs(d, 0, x) + y
  {
    if y == [] {
      assert x + y == x;
    } else {
      var init := y[..|y| - 1];
      PassThrough(d, x, init);
      assert (x + y)[..|x + y| - 1] == x + init;
      assert Outputs(d, 0, x) + y == Outputs(d, 0, x) + init + [y[|y| - 1]];
    }
  }
}
