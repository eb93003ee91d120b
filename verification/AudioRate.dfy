/** The streaming audio rate converter; one component of the complex stream is modelled. */
module AudioRate {
  import opened Wrappers
  import opened Arith
  import opened Filters
  import opened Decimator
  import opened RateConversion

  const PHASE_INTERVALS: nat := 256

  /** The filter design: taps are given, their shape is what matters. */
  datatype Plan = Plan(
    paired: seq<real>,
    center: real,
    coarseBanks: nat -> seq<seq<real>>,
    coarseLen: nat -> nat,
    banks: (Rate, nat) -> seq<seq<real>>,
    len: (Rate, nat) -> nat)
  {
    ghost predicate Sound()
    {
      && |paired| == 16
      && (forall d: nat :: d >= 1 ==> WellFormed(Coarse(d)))
      && (forall rate: Rate, output: nat :: Banked(banks(rate, output), len(rate, output)))
    }

    function Coarse(d: nat): Design
      requires |paired| == 16 && d >= 1
    {
      Design(d, HalfBandTaps(paired, center), StageCount(d), coarseBanks(d), coarseLen(d))
    }
  }

  predicate Banked(banks: seq<seq<real>>, len: nat)
  {
    len >= 1 && |banks| == PHASE_INTERVALS + 1 && forall b :: 0 <= b < |banks| ==> |banks[b]| == len
  }

  function Upto(x: seq<real>, n: nat): seq<real>
  {
    if n <= |x| then x[..n] else x
  }

  /** The frame grid of a conversion: frame `k` falls `k num / cd` coarse samples in. */
  datatype Grid = Grid(num: nat, cd: nat, banks: seq<seq<real>>, len: nat)
  {
    predicate Sound() { num >= 1 && cd >= 1 && Banked(banks, len) }

    /** Frame `k`: the filter selected by its exact phase, over the coarse samples up to its place. */
    function Frame(k: nat, coarse: seq<real>): real
      requires Sound()
    {
      Fir(PhaseTaps(banks, len, FramePhase(num, cd, k)), Upto(coarse, FrameIndex(num, cd, k) + 1))
    }

    /**
     Frame `k` is interpolated at its own instant: `q` coarse samples and a
     remainder `r` are `k num / cd`, and the latest sample heard is number `q`.
     */
    lemma FrameInterpolates(k: nat, coarse: seq<real>, q: nat, r: nat)
      requires Sound() && q * cd + r == k * num && r < cd
      ensures
        var heard := if q < |coarse| then coarse[..q + 1] else coarse;
        Interpolates(banks, r as real / cd as real, heard, Frame(k, coarse))
    {
      DivModUnique(k * num, cd, q, r);
      PhaseInterpolates(banks, len, FramePhase(num, cd, k), Upto(coarse, q + 1));
      if q == |coarse| - 1 {
        assert coarse[..q + 1] == coarse;
      }
    }

    /** Frames `from` and on, as held back after being computed. */
    ghost predicate Holds(pending: seq<real>, from: nat, coarse: seq<real>)
      requires Sound()
    {
      forall i :: 0 <= i < |pending| ==> pending[i] == Frame(from + i, coarse)
    }

    /** Every frame due by coarse sample number |coarse| is computed, and those not handed out are held. */
    ghost predicate Paced(next: nat, pending: seq<real>, delivered: nat, coarse: seq<real>)
      requires Sound()
    {
      && Pacing(num, cd, |coarse|, delivered + |pending|, next)
      && Holds(pending, delivered, coarse)
    }

    /** Part way through the frames of the latest coarse sample. */
    ghost predicate Filling(next: nat, pending: seq<real>, delivered: nat, coarse: seq<real>)
      requires Sound()
    {
      && coarse != [] && next + (|coarse| - 1) * cd == (delivered + |pending|) * num
      && (delivered + |pending| > 0 ==> next < cd + num)
      && Holds(pending, delivered, coarse)
    }

    /** Later samples do not touch frames already computed. */
    lemma Heard(next: nat, pending: seq<real>, delivered: nat, coarse: seq<real>, more: seq<real>)
      requires Sound() && Paced(next, pending, delivered, coarse)
      ensures Holds(pending, delivered, coarse + more)
    {
      forall i | 0 <= i < |pending| ensures pending[i] == Frame(delivered + i, coarse + more) {
        FrameIsHeard(num, cd, |coarse|, delivered + |pending|, next, delivered + i);
        var n := FrameIndex(num, cd, delivered + i) + 1;
        assert (coarse + more)[..n] == coarse[..n];
      }
    }

    /** One more frame falls within the latest coarse sample. */
    lemma FrameFalls(next: nat, pending: seq<real>, delivered: nat, coarse: seq<real>, frame: real)
      requires Sound() && Filling(next, pending, delivered, coarse) && next < cd
      requires 0.0 <= next as real / cd as real < 1.0
      requires frame == Fir(PhaseTaps(banks, len, next as real / cd as real), coarse)
      ensures Filling(next + num, pending + [frame], delivered, coarse)
    {
      var k := delivered + |pending|;
      FrameFallsHere(num, cd, |coarse| - 1, k, next);
      assert Upto(coarse, |coarse|) == coarse;
      assert (k + 1) * num == k * num + num;
    }

    /** Handing out the oldest frames leaves the rest held. */
    lemma Released(next: nat, pending: seq<real>, delivered: nat, coarse: seq<real>, due: nat)
      requires Sound() && Paced(next, pending, delivered, coarse) && due <= |pending|
      ensures Paced(next, pending[due..], delivered + due, coarse)
      ensures forall i :: 0 <= i < due ==> pending[..due][i] == Frame(delivered + i, coarse)
    {
      forall i | 0 <= i < |pending| - due ensures pending[due..][i] == Frame(delivered + due + i, coarse) {
        assert pending[due..][i] == pending[due + i];
      }
    }

    /** The frames of the latest coarse sample are complete. */
    lemma SampleDone(next: nat, pending: seq<real>, delivered: nat, coarse: seq<real>)
      requires Sound() && Filling(next, pending, delivered, coarse) && next >= cd
      ensures Paced(next - cd, pending, delivered, coarse)
    {
      assert |coarse| * cd == (|coarse| - 1) * cd + cd;
    }
  }

  class RatePump {
    const numerator: nat
    const outputDenominator: nat
    const coarseDenominator: nat
    const coarse: FirDecimator
    const filter: PhaseFilter?
    var next: nat
    var durationPhase: nat
    var pending: seq<real>
    ghost const repr: set<object>
    /** All input, and the number of frames handed out. */
    ghost var heard: seq<real>
    ghost var delivered: nat

    ghost predicate Shape()
    {
      && numerator >= 1 && outputDenominator >= 1 && coarse.decimation >= 1
      && coarseDenominator == outputDenominator * coarse.decimation && coarseDenominator >= 1
      && (coarse.decimation == 1 || 4 * (coarse.decimation * outputDenominator) <= numerator)
      && this !in repr && coarse in repr && coarse.repr <= repr
      && WellFormed(coarse.design) && coarse.design.decimation == coarse.decimation
      && (if filter == null then numerator == outputDenominator
          else (&& filter.ring in repr - coarse.repr && filter.ring.history in repr - coarse.repr
                && Banked(filter.banks, filter.ring.len)))
    }

    /** The coarse samples of everything heard. */
    ghost function CoarseStream(): seq<real>
      requires WellFormed(coarse.design)
      reads this`heard
    {
      Outputs(coarse.design, 0, heard)
    }

    ghost function FrameGrid(): Grid
      requires filter != null
    {
      Grid(numerator, coarseDenominator, filter.banks, filter.ring.len)
    }

    /** Frame `k` of an input. */
    ghost function FrameOf(x: seq<real>, k: nat): real
      requires Shape()
    {
      if filter == null then At(x, k) else FrameGrid().Frame(k, Outputs(coarse.design, 0, x))
    }

    /** An input reaches as far as frame `k`. */
    ghost predicate Reaches(x: seq<real>, k: nat)
      requires Shape()
    {
      if filter == null then k < |x| else FrameIndex(numerator, coarseDenominator, k) < |Outputs(coarse.design, 0, x)|
    }

    ghost predicate AllReached(x: seq<real>, n: nat)
      requires Shape()
    {
      forall k :: 0 <= k < n ==> Reaches(x, k)
    }

    /** Later input leaves a frame as it was. */
    lemma FrameStays(x: seq<real>, more: seq<real>, k: nat)
      requires Shape() && Reaches(x, k)
      ensures FrameOf(x + more, k) == FrameOf(x, k)
    {
      if filter != null {
        OutputsExtend(coarse.design, 0, x, more);
        var n := FrameIndex(numerator, coarseDenominator, k) + 1;
        var before, after := Outputs(coarse.design, 0, x), Outputs(coarse.design, 0, x + more);
        assert after[..n] == before[..n];
      }
    }

    /** Whatever was handed out was reached. */
    lemma DeliveredIsReached()
      requires Valid()
      ensures AllReached(heard, delivered)
    {
      if filter != null {
        forall k | 0 <= k < delivered ensures Reaches(heard, k) {
          FrameIsHeard(numerator, coarseDenominator, |CoarseStream()|, delivered + |pending|, next, k);
        }
      }
    }

    /** The next frames of the whole stream so far. */
    ghost predicate Next(frames: seq<real>, from: nat)
      requires Shape()
      reads this`heard
    {
      forall i :: 0 <= i < |frames| ==> frames[i] == FrameOf(heard, from + i)
    }

    /** The remainder says that `delivered` frames, rounded up, are the duration of `n` samples. */
    ghost predicate CountedTo(n: nat)
      requires Shape()
      reads this`durationPhase, this`delivered
    {
      durationPhase < numerator && durationPhase + delivered * numerator == n * outputDenominator + numerator - 1
    }

    ghost predicate Valid()
      reads this, repr
    {
      && Shape()
      && (if filter == null then pending == [] && delivered == |heard|
          else Filtering() && FrameGrid().Paced(next, pending, delivered, CoarseStream()) && CountedTo(|heard|))
    }

    /** The coarse decimator and the filter have taken in all that was heard. */
    ghost predicate Filtering()
      requires Shape() && filter != null
      reads this`heard, repr
    {
      && coarse.Valid() && coarse.first == 0 && coarse.input == heard
      && filter.Valid() && filter.ring.past == CoarseStream()
    }

    constructor (plan: Plan, rate: Rate, output: nat)
      requires plan.Sound() && InRange(rate, output)
      ensures Valid() && fresh(repr) && heard == [] && delivered == 0
      ensures numerator == rate.num && outputDenominator == rate.den * output
      ensures coarse.design == plan.Coarse(CoarseFactor(rate, output))
      ensures filter == null <==> rate.num == rate.den * output
      ensures filter != null ==> filter.banks == plan.banks(rate, output) && filter.ring.len == plan.len(rate, output)
    {
      var factor := CoarseFactor(rate, output);
      var od := rate.den * output;
      Denominators(rate.den, output, factor, od);
      assert WellFormed(plan.Coarse(factor));
      var decimator := new FirDecimator(plan.paired, plan.center, factor, plan.coarseBanks(factor),
          plan.coarseLen(factor));
      var last: PhaseFilter? := null;
      ghost var rings: set<object> := {};
      if rate.num != od {
        assert Banked(plan.banks(rate, output), plan.len(rate, output));
        last := new PhaseFilter(plan.banks(rate, output), plan.len(rate, output));
        rings := {last.ring, last.ring.history};
      }
      coarse, filter := decimator, last;
      numerator, outputDenominator, coarseDenominator := rate.num, od, od * factor;
      next, durationPhase, pending := 0, rate.num - 1, [];
      repr := decimator.repr + rings;
      heard, delivered := [], 0;
    }

    /** Compute one frame from what the filter holds. */
    method ComputeFrame()
      requires Shape() && filter != null && filter.Valid() && next < coarseDenominator
      requires FrameGrid().Filling(next, pending, delivered, filter.ring.past)
      modifies this`next, this`pending
      ensures next == old(next) + numerator && FrameGrid().Filling(next, pending, delivered, filter.ring.past)
    {
      ProperFraction(next as real, coarseDenominator as real);
      var frame := filter.Output(next as real / coarseDenominator as real);
      FrameGrid().FrameFalls(next, pending, delivered, filter.ring.past, frame);
      pending := pending + [frame];
      next := next + numerator;
    }

    /** Take one coarse sample and compute every frame that falls before the next one. */
    method PushCoarse(sample: real)
      requires Shape() && filter != null && filter.Valid()
      requires FrameGrid().Paced(next, pending, delivered, filter.ring.past)
      modifies filter.ring, filter.ring.history, this`next, this`pending
      ensures filter.Valid() && filter.ring.past == old(filter.ring.past) + [sample]
      ensures FrameGrid().Paced(next, pending, delivered, filter.ring.past)
    {
      FrameGrid().Heard(next, pending, delivered, filter.ring.past, [sample]);
      filter.ring.Push(sample);
      ghost var past := filter.ring.past;
      while next < coarseDenominator
        invariant filter.Valid() && filter.ring.past == past
        invariant FrameGrid().Filling(next, pending, delivered, past)
        decreases coarseDenominator - next
      {
        ComputeFrame();
      }
      FrameGrid().SampleDone(next, pending, delivered, past);
      next := next - coarseDenominator;
    }

    /**
     Hand out the frames the input so far is worth; the frames computed always
     suffice.
     */
    method Process(samples: seq<real>) returns (frames: seq<real>)
      requires Valid()
      modifies this, repr
      ensures Valid() && heard == old(heard) + samples && delivered == old(delivered) + |frames|
      ensures Next(frames, old(delivered))
    {
      if filter == null {
        heard := heard + samples;
        delivered := delivered + |samples|;
        return samples;
      }
      frames := Convert(samples);
    }

    method Convert(samples: seq<real>) returns (frames: seq<real>)
      requires Valid() && filter != null
      modifies this, repr
      ensures Valid() && heard == old(heard) + samples && delivered == old(delivered) + |frames|
      ensures Next(frames, old(delivered))
    {
      Hear(samples);
      frames := HandOut(|samples|);
    }

    /** Decimate and filter. */
    method Hear(samples: seq<real>)
      requires Shape() && filter != null && Filtering() && FrameGrid().Paced(next, pending, delivered, CoarseStream())
      modifies this`heard, this`next, this`pending, repr
      ensures Filtering() && FrameGrid().Paced(next, pending, delivered, CoarseStream())
      ensures heard == old(heard) + samples
    {
      var output := coarse.Process(samples);
      Feed(output);
      heard := heard + samples;
    }

    /** Push coarse samples in order. */
    method Feed(output: seq<real>)
      requires Shape() && filter != null && filter.Valid()
      requires FrameGrid().Paced(next, pending, delivered, filter.ring.past)
      modifies filter.ring, filter.ring.history, this`next, this`pending
      ensures filter.Valid() && filter.ring.past == old(filter.ring.past) + output
      ensures FrameGrid().Paced(next, pending, delivered, filter.ring.past)
    {
      ghost var stream := filter.ring.past;
      for n := 0 to |output|
        invariant filter.Valid() && filter.ring.past == stream + output[..n]
        invariant FrameGrid().Paced(next, pending, delivered, filter.ring.past)
      {
        PushCoarse(output[n]);
        assert output[..n + 1] == output[..n] + [output[n]];
        assert stream + output[..n] + [output[n]] == stream + output[..n + 1];
      }
      assert output[..|output|] == output;
    }

    /** Release the frames that the last `n` samples heard are worth. */
    method HandOut(n: nat) returns (frames: seq<real>)
      requires Shape() && filter != null && n <= |heard| && CountedTo(|heard| - n)
      requires FrameGrid().Paced(next, pending, delivered, CoarseStream())
      modifies this`durationPhase, this`pending, this`delivered
      ensures FrameGrid().Paced(next, pending, delivered, CoarseStream()) && CountedTo(|heard|)
      ensures delivered == old(delivered) + |frames|
      ensures Next(frames, old(delivered))
      ensures |pending| <= 1
    {
      var due := CountDuration(n);
      assert |pending| >= due;
      frames := Drain(due);
    }

    /**
     In every reachable state, what was handed out is the duration heard, rounded up,
     and at most one frame is held back.
     */
    lemma DeliveredIsDue()
      requires Valid()
      ensures delivered == CeilDiv(|heard| * outputDenominator, numerator) && |pending| <= 1
    {
      if filter == null {
        WholeFrames(|heard|, numerator);
      } else {
        DivModUnique(|heard| * outputDenominator + numerator - 1, numerator, delivered, durationPhase);
        EnoughComputed();
      }
    }

    /** The frames computed cover those that everything heard is worth, with at most one to spare. */
    lemma EnoughComputed()
      requires Shape() && filter != null && FrameGrid().Paced(next, pending, delivered, CoarseStream())
      ensures CeilDiv(|heard| * outputDenominator, numerator) <= delivered + |pending|
      ensures delivered + |pending| <= CeilDiv(|heard| * outputDenominator, numerator) + 1
    {
      CoarseCount();
      Enough(FrameGrid(), outputDenominator, coarse.decimation, |heard|, |heard| * outputDenominator,
          delivered + |pending|,
             |CoarseStream()|, next);
    }

    lemma CoarseCount()
      requires Shape()
      ensures |CoarseStream()| == CeilDiv(|heard|, coarse.decimation)
    {
      OutputCount(coarse.design, 0, heard);
      if heard == [] {
        CeilDivUnique(0, coarse.decimation, 0);
      }
    }

    /** How many frames the last `n` samples heard make due. */
    method CountDuration(n: nat) returns (due: nat)
      requires Shape() && filter != null && n <= |heard| && CountedTo(|heard| - n)
      requires FrameGrid().Paced(next, pending, delivered, CoarseStream())
      modifies this`durationPhase
      ensures durationPhase < numerator
      ensures durationPhase + (delivered + due) * numerator == |heard| * outputDenominator + numerator - 1
      ensures due <= |pending| <= due + 1
    {
      EnoughComputed();
      AddedDuration(|heard| - n, n, outputDenominator);
      due := Charge(n * outputDenominator, (|heard| - n) * outputDenominator, |heard| * outputDenominator,
                    delivered + |pending|);
    }

    method Charge(added: nat, ghost was: nat, ghost total: nat, ghost computed: nat) returns (due: nat)
      requires numerator >= 1 && was + added == total
      requires CeilDiv(total, numerator) <= computed <= CeilDiv(total, numerator) + 1
      requires durationPhase < numerator && durationPhase + delivered * numerator == was + numerator - 1
      modifies this`durationPhase
      ensures durationPhase < numerator && durationPhase + (delivered + due) * numerator == total + numerator - 1
      ensures delivered + due == CeilDiv(total, numerator) && delivered + due <= computed <= delivered + due + 1
    {
      CarriedCount(was, numerator, delivered, durationPhase, added);
      durationPhase := durationPhase + added;
      due := durationPhase / numerator;
      durationPhase := durationPhase % numerator;
    }

    method Drain(due: nat) returns (frames: seq<real>)
      requires Shape() && filter != null && due <= |pending|
      requires FrameGrid().Paced(next, pending, delivered, CoarseStream())
      modifies this`pending, this`delivered
      ensures FrameGrid().Paced(next, pending, delivered, CoarseStream())
      ensures |frames| == due && delivered == old(delivered) + due && pending == old(pending)[due..]
      ensures Next(frames, old(delivered))
    {
      FrameGrid().Released(next, pending, delivered, CoarseStream(), due);
      frames := pending[..due];
      pending := pending[due..];
      delivered := delivered + due;
    }
  }

  /** The frames due never outnumber those computed, even on a partial coarse stride, and at most one is left over. */
  lemma Enough(g: Grid, od: nat, factor: nat, heard: nat, total: nat, computed: nat, coarse: nat, next: nat)
    requires g.num >= 1 && factor >= 1 && (factor == 1 || 4 * (factor * od) <= g.num)
    requires g.cd == od * factor && total == heard * od && coarse == CeilDiv(heard, factor)
    requires Pacing(g.num, g.cd, coarse, computed, next)
    ensures CeilDiv(total, g.num) <= computed <= CeilDiv(total, g.num) + 1
  {
    PacingCounts(g.num, g.cd, coarse, computed, next);
    EnoughFrames(g.num, od, heard, factor, coarse, computed);
  }

  lemma AddedDuration(before: nat, n: nat, od: nat)
    ensures before * od + n * od == (before + n) * od
  {
  }

  lemma Denominators(den: nat, output: nat, factor: nat, od: nat)
    requires den >= 1 && output >= 1 && factor >= 1 && od == den * output
    ensures od >= 1 && od * factor >= 1
  {
    MulGap(den, 0, output);
    MulGap(od, 0, factor);
  }

  /** Without conversion every sample is a frame. */
  lemma WholeFrames(n: nat, num: nat)
    requires num >= 1
    ensures CeilDiv(n * num, num) == n
  {
    if n > 0 {
      assert num * (n - 1) == n * num - num;
    }
    CeilDivUnique(n * num, num, n);
  }

  // ---------------------------------------------------------------------
  // The converter
  // ---------------------------------------------------------------------

  function Loudness(x: real, gain: real, unclipped: bool): real
  {
    var output := x * gain;
    if unclipped then output else if output < -1.0 then -1.0 else if output > 1.0 then 1.0 else output
  }

  /** Clipping gives the level of full scale or less that is nearest to the amplified one. */
  lemma LoudnessIsNearest(x: real, gain: real, z: real)
    requires -1.0 <= z <= 1.0
    ensures Loudness(x, gain, true) == x * gain
    ensures -1.0 <= Loudness(x, gain, false) <= 1.0
    ensures var output := x * gain;
      var error := Loudness(x, gain, false) - output;
      -(if z < output then output - z else z - output) <= error <= if z < output then output - z else z - output
  {
  }

  function Amplified(raw: seq<real>, gain: real, unclipped: bool): (frames: seq<real>)
    ensures |frames| == |raw| && forall i :: 0 <= i < |raw| ==> frames[i] == Loudness(raw[i], gain, unclipped)
  {
    seq(|raw|, i requires 0 <= i < |raw| => Loudness(raw[i], gain, unclipped))
  }

  /** Root capture duration: how many frames the source samples so far are worth, kept as a remainder. */
  datatype Capture = Capture(source: Rate, numerator: nat, denominator: nat, phase: nat, pending: seq<real>)
  {
    /** The remainder says that `claimed` frames, rounded up, are the duration of `root` samples. */
    predicate Counts(root: nat, claimed: nat)
    {
      phase < numerator && phase + claimed * numerator == root * denominator + numerator - 1
    }

    lemma NothingClaimed()
      requires numerator >= 1 && phase == numerator - 1
      ensures Counts(0, 0)
    {
    }

    /** The frames that `n` more root samples make due, and the remainder after them. */
    function Charge(n: nat): (r: (nat, nat))
      requires numerator >= 1
    {
      var total := phase + n * denominator;
      (total / numerator, total % numerator)
    }

    lemma Charged(n: nat, root: nat, claimed: nat)
      requires Counts(root, claimed)
      ensures var (due, left) := Charge(n);
        this.(phase := left).Counts(root + n, claimed + due)
            && claimed + due == CeilDiv((root + n) * denominator, numerator)
    {
      CarriedCount(root * denominator, numerator, claimed, phase, n * denominator);
      AddedDuration(root, n, denominator);
    }

    /** The capture as kept is the one whose progress is given. */
    ghost predicate Keeps(p: Progress, rate: Rate, output: nat)
    {
      && source.Positive() && !source.Below(rate)
      && numerator == source.num && denominator == source.den * output
      && Counts(p.root, p.claimed) && p.claimed <= |p.made| && pending == p.made[p.claimed..]
      && |p.heard| == p.supplied + Startup(rate, source)
    }

    lemma Held(p: Progress, rate: Rate, output: nat, samples: seq<real>, more: seq<real>, gains: seq<real>)
      requires Keeps(p, rate, output)
      ensures this.(pending := pending + more).Keeps(p.Collected(samples, more, gains), rate, output)
    {
      assert (p.made + more)[p.claimed..] == p.made[p.claimed..] + more;
    }

    lemma Released(p: Progress, rate: Rate, output: nat, n: nat, due: nat, left: nat)
      requires Keeps(p, rate, output) && due <= |pending|
      requires this.(phase := left).Counts(p.root + n, p.claimed + due)
      ensures pending[..due] == p.made[p.claimed..p.claimed + due]
      ensures this.(phase := left, pending := pending[due..]).Keeps(p.Paid(n, due), rate, output)
    {
    }
  }

  /**
   How far a capture has come: root samples, samples arrived, frames handed out, all
   input, and the frames made, each with its gain.
   */
  datatype Progress = Progress(root: nat, supplied: nat, claimed: nat, heard: seq<real>, made: seq<real>,
      gains: seq<real>)
  {
    function Collected(samples: seq<real>, more: seq<real>, log: seq<real>): Progress
    {
      this.(supplied := supplied + |samples|, heard := heard + samples, made := made + more, gains := log)
    }

    function Paid(n: nat, due: nat): Progress
    {
      this.(root := root + n, claimed := claimed + due)
    }

    /** Samples came in at a gain, and the next frames of all those made went out. */
    ghost predicate LeadsTo(now: Progress, n: nat, samples: seq<real>, gain: real, frames: seq<real>)
    {
      && now.root == root + n && now.supplied == supplied + |samples| && now.heard == heard + samples
      && made <= now.made && GoesOn(now.gains, gains, gain)
      && now.claimed == claimed + |frames| && now.claimed <= |now.made| && frames == now.made[claimed..now.claimed]
    }

    lemma Stays(gain: real)
      requires claimed <= |made|
      ensures LeadsTo(this, 0, [], gain, [])
    {
    }

    lemma Onward(mid: Progress, now: Progress, n: nat, samples: seq<real>, gain: real, frames: seq<real>)
      requires LeadsTo(mid, 0, [], gain, []) && mid.LeadsTo(now, n, samples, gain, frames)
      ensures LeadsTo(now, n, samples, gain, frames)
    {
      GoesOnFurther(now.gains, mid.gains, gains, gain);
    }
  }

  function Begun(rate: Rate, source: Rate): Progress
  {
    Progress(0, 0, 0, Silent(Startup(rate, source)), [], [])
  }

  /** ceil(n stride output / source). */
  function ClockedDue(n: nat, source: nat, stride: nat, output: nat): nat
    requires source >= 1
  {
    CeilDiv(n * stride * output, source)
  }

  /** Rounded-up counts depend on the fraction only. */
  lemma SameFraction(n: nat, output: nat, rate: Rate, source: nat, stride: nat)
    requires rate.Positive() && source >= 1 && stride >= 1 && rate.num * stride == source * rate.den
    ensures FramesDue(rate, output, n) == ClockedDue(n, source, stride, output)
  {
    var a, c := n * (rate.den * output), n * stride * output;
    assert a * source == c * rate.num by {
      CrossScaled(n, rate.den, output, source, stride, rate.num);
    }
    CeilDivMonotone(a, rate.num, c, source);
    CeilDivMonotone(c, source, a, rate.num);
  }

  lemma CrossScaled(n: nat, den: nat, output: nat, source: nat, stride: nat, num: nat)
    requires num * stride == source * den
    ensures n * (den * output) * source == n * stride * output * num
  {
    assert n * (den * output) * source == n * output * (source * den);
    assert n * stride * output * num == n * output * (num * stride);
  }

  /** A bound on a fraction does not depend on how it is written. */
  lemma SameSide(c: nat, num: nat, den: nat, source: nat, stride: nat)
    requires den >= 1 && stride >= 1 && num * stride == source * den
    ensures c * den <= num <==> c * stride <= source
    ensures num <= c * den <==> source <= c * stride
  {
    Scaled(c * den, num, stride);
    Scaled(c * stride, source, den);
    assert c * den * stride == c * stride * den;
  }

  lemma Scaled(a: nat, b: nat, k: nat)
    requires k >= 1
    ensures a <= b <==> a * k <= b * k
    ensures b <= a <==> b * k <= a * k
  {
    if a < b {
      MulGap(k, a, b);
    } else if b < a {
      MulGap(k, b, a);
    }
  }

  /** Whether a clock is in range can be read off the clock itself. */
  predicate ClockInRange(source: nat, stride: nat, output: nat)
  {
    && source >= 1 && stride >= 1 && 100 * stride <= source <= 20_000_000 * stride
    && 8_000 <= output <= 384_000
  }

  lemma RatioInRange(ratio: Rate, source: nat, stride: nat, output: nat)
    requires ratio.Positive() && source >= 1 && stride >= 1 && ratio.num * stride == source * ratio.den
    ensures InRange(ratio, output) <==> ClockInRange(source, stride, output)
  {
    SameSide(100, ratio.num, ratio.den, source, stride);
    SameSide(20_000_000, ratio.num, ratio.den, source, stride);
  }

  /** The frames of an input, each at its own gain. */
  ghost predicate AtGains(pump: RatePump, x: seq<real>, made: seq<real>, gains: seq<real>, unclipped: bool)
    requires pump.Shape()
  {
    |made| == |gains| && forall k :: 0 <= k < |made| ==> made[k] == Loudness(pump.FrameOf(x, k), gains[k], unclipped)
  }

  /** Frames `from` and on of an input, at one gain. */
  ghost predicate NextAtGain(pump: RatePump, x: seq<real>, frames: seq<real>, from: nat, gain: real, unclipped: bool)
    requires pump.Shape()
  {
    forall i :: 0 <= i < |frames| ==> frames[i] == Loudness(pump.FrameOf(x, from + i), gain, unclipped)
  }

  /** A log goes on with one value. */
  ghost predicate GoesOn(log: seq<real>, before: seq<real>, value: real)
  {
    |before| <= |log| && log[..|before|] == before && forall i :: |before| <= i < |log| ==> log[i] == value
  }

  lemma GoesOnFurther(log: seq<real>, before: seq<real>, first: seq<real>, value: real)
    requires GoesOn(log, before, value) && GoesOn(before, first, value)
    ensures GoesOn(log, first, value)
  {
    assert log[..|first|] == before[..|first|];
    forall i | |first| <= i < |log| ensures log[i] == value {
      if i < |before| {
        assert log[i] == before[i];
      }
    }
  }

  /** Frames made keep their values while more is heard, and new ones join them. */
  lemma MoreMade(
      pump: RatePump, x: seq<real>, samples: seq<real>, y: seq<real>, made: seq<real>, more: seq<real>,
      gains: seq<real>, log: seq<real>, gain: real, unclipped: bool)
    requires pump.Shape() && AtGains(pump, x, made, gains, unclipped)
    requires y == x + samples && pump.AllReached(x, |made|)
    requires NextAtGain(pump, y, more, |made|, gain, unclipped)
    requires |log| == |gains| + |more| && GoesOn(log, gains, gain)
    ensures AtGains(pump, y, made + more, log, unclipped)
  {
    var all := made + more;
    forall k | 0 <= k < |all| ensures all[k] == Loudness(pump.FrameOf(y, k), log[k], unclipped) {
      if k < |made| {
        pump.FrameStays(x, samples, k);
        assert log[k] == gains[k];
      } else {
        assert more[k - |made|] == Loudness(pump.FrameOf(y, |made| + (k - |made|)), gain, unclipped);
      }
    }
  }

  /** A log that goes on `n` times. */
  ghost function Logged(before: seq<real>, n: nat, value: real): (log: seq<real>)
    ensures |log| == |before| + n && GoesOn(log, before, value)
  {
    before + seq(n, i => value)
  }

  class IqAudioConverter {
    const plan: Plan
    const unclipped: bool
    var settings: Option<(Rate, nat)>
    var clockRatio: Option<Rate>
    var pump: RatePump?
    var capture: Option<Capture>
    /** The capture so far. */
    ghost var log: Progress

    ghost predicate Valid()
      reads this, pump, if pump == null then {} else pump.repr
    {
      && plan.Sound()
      && (match settings
          case None => pump == null && clockRatio == None && capture == None
          case Some((rate, output)) => (clockRatio.Some? ==> clockRatio.value == rate) && Running(rate, output))
    }

    ghost predicate Running(rate: Rate, output: nat)
      reads this, pump, if pump == null then {} else pump.repr
    {
      && pump != null && InRange(rate, output) && this !in pump.repr && pump.Valid()
      && pump.numerator == rate.num && pump.outputDenominator == rate.den * output
    }

    constructor (plan: Plan, unclipped: bool)
      requires plan.Sound()
      ensures Valid() && settings == None
    {
      this.plan, this.unclipped := plan, unclipped;
      settings, clockRatio, pump, capture := None, None, null, None;
    }

    method Reset()
      requires plan.Sound()
      modifies this`settings, this`clockRatio, this`pump, this`capture
      ensures Valid() && settings == None
    {
      settings, clockRatio, pump, capture := None, None, null, None;
    }

    /** Start afresh for a new pair of rates; refuse rates out of range. */
    method Configure(rate: Rate, output: nat) returns (ok: bool)
      requires Valid()
      modifies this`settings, this`clockRatio, this`pump, this`capture
      ensures Valid() && ok == InRange(rate, output)
      ensures settings == if ok then Some((rate, output)) else None
      ensures ok && old(settings) == settings ==>
        pump == old(pump) && clockRatio == old(clockRatio) && capture == old(capture)
      ensures ok && old(settings) != settings ==>
        fresh(pump) && fresh(pump.repr) && pump.heard == [] && pump.delivered == 0 && clockRatio == None
            && capture == None
    {
      if !InRange(rate, output) {
        Reset();
        return false;
      }
      if settings == Some((rate, output)) {
        return true;
      }
      Build(rate, output);
      ok := true;
    }

    method Build(rate: Rate, output: nat)
      requires plan.Sound() && InRange(rate, output)
      modifies this`settings, this`clockRatio, this`pump, this`capture
      ensures Valid() && settings == Some((rate, output)) && clockRatio == None && capture == None
      ensures fresh(pump) && fresh(pump.repr) && pump.heard == [] && pump.delivered == 0
    {
      var built := new RatePump(plan, rate, output);
      settings, clockRatio, pump, capture := Some((rate, output)), None, built, None;
    }

    /** All input heard at the current rates. */
    ghost function Heard(): seq<real>
      reads this, pump
    {
      if pump == null then [] else pump.heard
    }

    /** What was heard before a call at these rates. */
    ghost function HeardAt(rate: Rate, output: nat): seq<real>
      reads this, pump
    {
      if settings == Some((rate, output)) then Heard() else []
    }

    ghost function DeliveredAt(rate: Rate, output: nat): nat
      reads this, pump
    {
      if settings == Some((rate, output)) && pump != null then pump.delivered else 0
    }

    /** However the input was cut, the frames handed out are its duration at the current rates, rounded up. */
    lemma DurationExact()
      requires Valid() && settings.Some?
      ensures pump.delivered == FramesDue(settings.value.0, settings.value.1, |Heard()|)
    {
      pump.DeliveredIsDue();
    }

    /** The frames handed out are exactly the next ones of the whole stream, at this call's loudness. */
    ghost predicate Delivers(frames: seq<real>, from: nat, gain: real)
      requires pump != null && pump.Shape()
      reads this, pump
    {
      pump.delivered == from + |frames| && NextAtGain(pump, pump.heard, frames, from, gain, unclipped)
    }

    method Process(samples: seq<real>, rate: Rate, output: nat, gain: real) returns (frames: seq<real>)
      requires Valid()
      modifies this, pump, if pump == null then {} else pump.repr
      ensures Valid()
      ensures !InRange(rate, output) ==> frames == [] && settings == None
      ensures InRange(rate, output) ==>
        && settings == Some((rate, output)) && Heard() == old(HeardAt(rate, output)) + samples
        && Delivers(frames, old(DeliveredAt(rate, output)), gain)
      ensures InRange(rate, output) && old(settings) == settings ==>
        pump == old(pump) && clockRatio == old(clockRatio) && capture == old(capture)
      ensures InRange(rate, output) && old(settings) != settings ==> fresh(pump) && fresh(pump.repr) && capture == None
    {
      var ok := Configure(rate, output);
      if !ok {
        return [];
      }
      if samples == [] {
        return [];
      }
      frames := Advance(samples, gain);
    }

    /** Convert more input at the settings in force. */
    method Advance(samples: seq<real>, gain: real) returns (frames: seq<real>)
      requires Valid() && settings.Some?
      modifies pump, pump.repr
      ensures Valid() && pump.heard == old(pump.heard) + samples && Delivers(frames, old(pump.delivered), gain)
    {
      var raw := Pull(samples);
      frames := Amplified(raw, gain, unclipped);
    }

    method Pull(samples: seq<real>) returns (raw: seq<real>)
      requires Valid() && settings.Some?
      modifies pump, pump.repr
      ensures Valid() && pump.heard == old(pump.heard) + samples && pump.delivered == old(pump.delivered) + |raw|
      ensures pump.Next(raw, old(pump.delivered))
    {
      raw := pump.Process(samples);
    }

    /** Settle on the exact rate of a capture clock, starting afresh if it is another. */
    method SelectClock(ratio: Rate, output: nat) returns (ok: bool)
      requires Valid()
      modifies this`settings, this`clockRatio, this`pump, this`capture
      ensures Valid() && ok == InRange(ratio, output)
      ensures ok ==> settings == Some((ratio, output)) && clockRatio == Some(ratio)
      ensures !ok ==> settings == None
      ensures ok && old(clockRatio) == Some(ratio) && old(settings) == Some((ratio, output)) ==>
        pump == old(pump) && capture == old(capture)
      ensures ok && !(old(clockRatio) == Some(ratio) && old(settings) == Some((ratio, output))) ==>
        fresh(pump) && fresh(pump.repr) && pump.heard == [] && pump.delivered == 0 && capture == None
    {
      if clockRatio != Some(ratio) || settings != Some((ratio, output)) {
        Reset();
        ok := Configure(ratio, output);
        if ok {
          clockRatio := Some(ratio);
        }
      } else {
        ok := true;
      }
    }

    /** An exact capture clock: ceil(N stride out / source) frames after N samples, under any chunking. */
    method ProcessClocked(samples: seq<real>, source: nat, stride: nat, output: nat, gain: real)
      returns (frames: seq<real>)
      requires Valid()
      modifies this, pump, if pump == null then {} else pump.repr
      ensures Valid()
      ensures settings.Some? <==> ClockInRange(source, stride, output)
      ensures settings.None? ==> frames == []
      ensures settings.Some? ==>
        && settings == Some((settings.value.0, output)) && clockRatio == Some(settings.value.0)
        && settings.value.0.num * stride == source * settings.value.0.den
        && var same := old(clockRatio) == clockRatio && old(settings) == settings;
           && Heard() == (if same then old(Heard()) else []) + samples
           && Delivers(frames, if same then old(DeliveredAt(settings.value.0, output)) else 0, gain)
    {
      if source == 0 || stride == 0 {
        Reset();
        return [];
      }
      var ratio := LowestTerms(source, stride);
      RatioInRange(ratio, source, stride, output);
      var ok := SelectClock(ratio, output);
      if !ok {
        return [];
      }
      frames := Process(samples, ratio, output, gain);
    }

    lemma ClockedDuration(source: nat, stride: nat)
      requires Valid() && settings.Some? && source >= 1 && stride >= 1
      requires settings.value.0.num * stride == source * settings.value.0.den
      ensures pump.delivered == ClockedDue(|Heard()|, source, stride, settings.value.1)
    {
      DurationExact();
      SameFraction(|Heard()|, settings.value.1, settings.value.0, source, stride);
    }

    // Root capture duration

    /** The next capture call goes on with the capture in progress. */
    predicate Continues(rate: Rate, output: nat, source: Rate)
      reads this
    {
      settings == Some((rate, output)) && capture.Some? && capture.value.source == source
    }

    /** How far the capture had come that the next call goes on with. */
    ghost function ProgressAt(rate: Rate, output: nat, source: Rate): Progress
      reads this
    {
      if Continues(rate, output, source) then log else Begun(rate, source)
    }

    /** Everything converted since the capture began went through it. */
    ghost predicate Capturing()
      reads this, pump
    {
      settings.Some? && pump != null && capture.Some?
          && capture.value.Keeps(log, settings.value.0, settings.value.1) && Made(log)
    }

    /** The pump has heard and made what the log says. */
    ghost predicate Made(p: Progress)
      requires pump != null
      reads this`pump, pump
    {
      && pump.Shape() && pump.heard == p.heard && pump.delivered == |p.made|
      && AtGains(pump, p.heard, p.made, p.gains, unclipped)
    }

    /**
     Frames by the duration of the capture at its root: at least the floor of
     what the root samples come to must have arrived, and then the frames held
     always suffice.  Those handed out are the next ones of the whole stream, each
     at the gain of the call that converted it.
     */
    method ProcessCapture(samples: seq<real>, rate: Rate, output: nat, gain: real, sourceSamples: nat, source: Rate)
      returns (frames: seq<real>)
      requires Valid()
      requires Continues(rate, output, source) ==> Capturing()
      requires settings == Some((rate, output)) && capture == None ==> Heard() == []
      requires rate.Positive() && source.Positive() ==>
        var was := ProgressAt(rate, output, source);
        Covers(was.supplied + |samples|, was.root + sourceSamples, rate, source)
      modifies this, pump, if pump == null then {} else pump.repr
      ensures Valid()
      ensures settings.None? ==> frames == []
      ensures settings.Some? <==> SourceInRange(source) && !source.Below(rate) && InRange(rate, output)
      ensures settings.Some? ==>
        && Continues(rate, output, source) && Capturing()
        && old(ProgressAt(rate, output, source)).LeadsTo(log, sourceSamples, samples, gain, frames)
    {
      ghost var was := ProgressAt(rate, output, source);
      var ready := Ready(rate, output, gain, source);
      if !ready {
        return [];
      }
      frames := ClaimOn(was, samples, rate, output, gain, sourceSamples, source);
    }

    /** Claim, on from the progress before this call. */
    method ClaimOn(ghost was: Progress, samples: seq<real>, ghost rate: Rate, ghost output: nat, gain: real,
                   sourceSamples: nat, ghost source: Rate)
      returns (frames: seq<real>)
      requires Valid() && Capturing() && Continues(rate, output, source) && was.LeadsTo(log, 0, [], gain, [])
      requires Covers(was.supplied + |samples|, was.root + sourceSamples, rate, source)
      modifies this`capture, this`log, pump, pump.repr
      ensures Valid() && settings.Some? && Capturing() && Continues(rate, output, source)
      ensures was.LeadsTo(log, sourceSamples, samples, gain, frames)
    {
      ghost var mid := log;
      frames := Claim(samples, gain, sourceSamples);
      was.Onward(mid, log, sourceSamples, samples, gain, frames);
    }

    /** Go on with the capture in progress, or begin one. */
    method Ready(rate: Rate, output: nat, gain: real, source: Rate) returns (ok: bool)
      requires Valid()
      requires Continues(rate, output, source) ==> Capturing()
      requires settings == Some((rate, output)) && capture == None ==> Heard() == []
      modifies this, pump, if pump == null then {} else pump.repr
      ensures Valid() && ok == settings.Some?
      ensures ok <==> SourceInRange(source) && !source.Below(rate) && InRange(rate, output)
      ensures ok ==>
        Continues(rate, output, source) && Capturing() && (pump == old(pump) || (fresh(pump) && fresh(pump.repr)))
      ensures ok ==> old(ProgressAt(rate, output, source)).LeadsTo(log, 0, [], gain, [])
    {
      ghost var was := ProgressAt(rate, output, source);
      ok := Select(rate, output, source);
      if ok && capture.None? {
        Begin(source, gain);
      } else if ok {
        was.Stays(gain);
      }
    }

    /** Settle on the rates; a capture in progress survives only if nothing changed. */
    method Select(rate: Rate, output: nat, source: Rate) returns (ok: bool)
      requires Valid()
      requires settings == Some((rate, output)) && capture == None ==> Heard() == []
      modifies this`settings, this`clockRatio, this`pump, this`capture
      ensures Valid() && ok == settings.Some?
      ensures ok <==> SourceInRange(source) && !source.Below(rate) && InRange(rate, output)
      ensures ok ==> settings == Some((rate, output)) && (pump == old(pump) || (fresh(pump) && fresh(pump.repr)))
      ensures ok && old(Continues(rate, output, source)) ==> pump == old(pump) && capture == old(capture)
      ensures ok && !old(Continues(rate, output, source)) ==> capture == None && Heard() == []
    {
      if !SourceInRange(source) || source.Below(rate) {
        Reset();
        return false;
      }
      if capture.Some? && capture.value.source != source {
        Reset();
      }
      ok := Configure(rate, output);
    }

    /** A decimator that floors its count is made up for by one silent interval. */
    method Begin(source: Rate, gain: real)
      requires Valid() && settings.Some? && Heard() == []
      requires SourceInRange(source) && !source.Below(settings.value.0)
      modifies this`capture, this`log, pump, pump.repr
      ensures Valid() && Capturing() && capture.value.source == source
      ensures Begun(settings.value.0, source).LeadsTo(log, 0, [], gain, [])
    {
      var pending := Silence(source, gain);
      var started := Capture(source, source.num, source.den * settings.value.1, source.num - 1, pending);
      started.NothingClaimed();
      ghost var gains := Logged([], |pending|, gain);
      Record(started, Begun(settings.value.0, source).Collected([], pending, gains));
    }

    method Silence(source: Rate, gain: real) returns (pending: seq<real>)
      requires Valid() && settings.Some? && Heard() == []
      modifies pump, pump.repr
      ensures Valid() && pump.heard == Silent(Startup(settings.value.0, source)) && Delivers(pending, 0, gain)
    {
      NothingDelivered();
      pending := [];
      if settings.value.0.Below(source) {
        pending := Advance([0.0], gain);
      }
    }

    /** Keep a capture and its progress. */
    method Record(c: Capture, ghost p: Progress)
      requires Valid() && settings.Some? && c.Keeps(p, settings.value.0, settings.value.1) && Made(p)
      modifies this`capture, this`log
      ensures Valid() && Capturing() && capture == Some(c) && log == p
    {
      capture, log := Some(c), p;
    }

    lemma NothingDelivered()
      requires Valid() && settings.Some? && Heard() == []
      ensures pump.delivered == 0
    {
      DurationExact();
      CeilDivUnique(0, settings.value.0.num, 0);
    }

    /** Convert what arrived and hand out what the root samples are worth. */
    method Claim(samples: seq<real>, gain: real, sourceSamples: nat) returns (frames: seq<real>)
      requires Valid() && Capturing()
      requires Covers(log.supplied + |samples|, log.root + sourceSamples, settings.value.0, capture.value.source)
      modifies this`capture, this`log, pump, pump.repr
      ensures Valid() && Capturing() && capture.value.source == old(capture.value.source)
      ensures old(log).LeadsTo(log, sourceSamples, samples, gain, frames)
    {
      Collect(samples, gain);
      frames := Settle(sourceSamples);
    }

    /** Convert what arrived and hold it. */
    method Collect(samples: seq<real>, gain: real)
      requires Valid() && Capturing()
      modifies this`capture, this`log, pump, pump.repr
      ensures Valid() && Capturing() && capture.value.source == old(capture.value.source)
      ensures old(log).LeadsTo(log, 0, samples, gain, [])
    {
      var more, gains := Extend(log, samples, gain);
      var c := capture.value;
      c.Held(log, settings.value.0, settings.value.1, samples, more, gains);
      Record(c.(pending := c.pending + more), log.Collected(samples, more, gains));
    }

    /** Convert more, on top of the frames made. */
    method Extend(ghost was: Progress, samples: seq<real>, gain: real) returns (more: seq<real>, ghost gains: seq<real>)
      requires Valid() && settings.Some? && Made(was)
      modifies pump, pump.repr
      ensures Valid() && Made(was.Collected(samples, more, gains)) && GoesOn(gains, was.gains, gain)
    {
      ghost var p := pump;
      p.DeliveredIsReached();
      more := Advance(samples, gain);
      gains := Logged(was.gains, |more|, gain);
      MoreMade(p, was.heard, samples, was.heard + samples, was.made, more, was.gains, gains, gain, unclipped);
    }

    method Settle(sourceSamples: nat) returns (frames: seq<real>)
      requires Valid() && Capturing()
      requires Covers(log.supplied, log.root + sourceSamples, settings.value.0, capture.value.source)
      modifies this`capture, this`log
      ensures Valid() && Capturing() && capture.value.source == old(capture.value.source)
      ensures log == old(log).Paid(sourceSamples, |frames|) && log.claimed <= |log.made|
      ensures frames == log.made[old(log).claimed..log.claimed]
    {
      var due, left := Owed(sourceSamples);
      var c := capture.value;
      c.Released(log, settings.value.0, settings.value.1, sourceSamples, due, left);
      frames := c.pending[..due];
      Record(c.(phase := left, pending := c.pending[due..]), log.Paid(sourceSamples, due));
    }

    /** The frames that more root samples make due; they are held already. */
    method Owed(sourceSamples: nat) returns (due: nat, left: nat)
      requires Valid() && Capturing()
      requires Covers(log.supplied, log.root + sourceSamples, settings.value.0, capture.value.source)
      ensures due <= |capture.value.pending|
      ensures capture.value.(phase := left).Counts(log.root + sourceSamples, log.claimed + due)
    {
      var c := capture.value;
      FramesSuffice(sourceSamples);
      c.Charged(sourceSamples, log.root, log.claimed);
      var charge := c.Charge(sourceSamples);
      due, left := charge.0, charge.1;
    }

    /** The frames converted cover the root duration. */
    lemma FramesSuffice(sourceSamples: nat)
      requires Valid() && Capturing()
      requires Covers(log.supplied, log.root + sourceSamples, settings.value.0, capture.value.source)
      ensures CeilDiv((log.root + sourceSamples) * capture.value.denominator, capture.value.numerator)
          <= log.claimed + |capture.value.pending|
    {
      DurationExact();
      MulGap(settings.value.0.den, 0, capture.value.source.num);
      RootDurationCovered(settings.value.0, capture.value.source, settings.value.1, log.root + sourceSamples,
                          log.supplied, |Heard()|);
    }

    /**
     The frames held back are at most what was supplied beyond the floor of the
     root samples comes to, the startup interval included.
     */
    lemma BacklogBounded(floor: nat, extra: nat)
      requires Valid() && Capturing() && Covers(log.supplied, log.root, settings.value.0, capture.value.source)
      requires var rate, source := settings.value.0, capture.value.source;
        rate.den * source.num >= 1 && floor == log.root * (rate.num * source.den) / (rate.den * source.num)
        && extra == log.supplied - floor
      ensures |capture.value.pending|
          <= FramesDue(settings.value.0, settings.value.1, extra + Startup(settings.value.0, capture.value.source))
    {
      DurationExact();
      RootDurationExact();
      Backlog(settings.value.0, capture.value.source, settings.value.1, log.root, floor,
              extra + Startup(settings.value.0, capture.value.source));
    }

    /** What a capture has handed out is its root duration, rounded up. */
    lemma RootDurationExact()
      requires Valid() && Capturing()
      ensures log.claimed == FramesDue(capture.value.source, settings.value.1, log.root)
    {
      var c := capture.value;
      DivModUnique(log.root * c.denominator + c.numerator - 1, c.numerator, log.claimed, c.phase);
    }
  }

  predicate SourceInRange(source: Rate)
  {
    source.Positive() && 100 * source.den <= source.num <= 20_000_000 * source.den
  }

  function Silent(n: nat): seq<real>
  {
    seq(n, i => 0.0)
  }

  /** One silent interval is heard first when the source is the faster. */
  function Startup(rate: Rate, source: Rate): nat
  {
    if rate.Below(source) then 1 else 0
  }

  /** At least the floor of what `root` source samples come to has been supplied. */
  predicate Covers(supplied: nat, root: nat, rate: Rate, source: Rate)
    requires rate.Positive() && source.Positive()
  {
    MulGap(rate.den, 0, source.num);
    supplied >= root * (rate.num * source.den) / (rate.den * source.num)
  }
}
