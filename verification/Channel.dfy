/**
 A virtual channel: every wideband block is mixed and decimated, and what comes
 out carries an exact clock.  The decimator is represented by its decimation and
 its distance to the next output, which is what its own contract says of timing.
 */
module Channel {
  import opened Wrappers
  import opened Arith
  import opened Capture
  import opened Oscillator
  import opened Decimator

  // ---------------------------------------------------------------------
  // Planning a channel
  // ---------------------------------------------------------------------

  /** The decimation for a requested channel; zero when the request is refused. */
  function PlanChannel(widebandCenter: int, widebandRate: nat, center: int, minRate: nat): (decimation: nat)
    ensures decimation != 0 <==> minRate != 0 && 0 - widebandRate <= 2 * (center - widebandCenter) <= widebandRate
    ensures decimation != 0 && widebandRate >= minRate ==> widebandRate / decimation >= minRate
    ensures decimation != 0 && widebandRate < minRate ==> decimation == 1
    ensures decimation != 0 ==> widebandRate / (decimation + 1) < minRate
  {
    if minRate == 0 then 0
    else if 2 * (center - widebandCenter) > widebandRate || 2 * (widebandCenter - center) > widebandRate then 0
    else
      DividedRate(widebandRate, minRate);
      if widebandRate / minRate >= 1 then widebandRate / minRate else 1
  }

  lemma RateBelow(n: nat, d: nat, bound: nat)
    requires d >= 1 && n < bound * d
    ensures n / d < bound
  {
    var q := n / d;
    assert d * q <= n;
    assert q * d < bound * d;
  }

  lemma DividedRate(rate: nat, minRate: nat)
    requires minRate >= 1
    ensures rate >= minRate ==> rate / minRate >= 1 && rate / (rate / minRate) >= minRate
    ensures rate / (rate / minRate + 1) < minRate
    ensures rate < minRate ==> rate / minRate == 0 && rate / 2 < minRate
  {
    var q := rate / minRate;
    assert rate == minRate * q + rate % minRate;
    RateBelow(rate, q + 1, minRate);
    if rate < minRate {
      DivModUnique(rate, minRate, 0, rate);
    } else {
      MulGap(minRate, q, q + 1);
      if rate / q < minRate {
        assert rate == q * (rate / q) + rate % q;
        MulGap(q, rate / q, minRate);
      }
    }
  }

  // ---------------------------------------------------------------------
  // What a channel's record of its inputs and outputs keeps
  // ---------------------------------------------------------------------

  /** A block whose clock can be used, within the widths of its fields. */
  predicate Usable(block: SampleBlock)
  {
    && ClockOf(block).sourceRate > 0 && ClockOf(block).stride > 0 && block.sampleRate > 0
  }

  predicate Fits(block: SampleBlock)
  {
    && block.startSample + block.count <= U64_MAX
    && ClockOf(block).sourceIndex <= U64_MAX && ClockOf(block).stride <= U32_MAX
  }

  /** A published block, the true input index of its first sample, and the decimation in force. */
  datatype Sent = Sent(block: SampleBlock, inputIndex: nat, decimation: nat)

  /** Input blocks handled in one output epoch follow one another; a new output epoch was never used before. */
  ghost predicate Chained(inputs: seq<SampleBlock>, tags: seq<nat>)
    requires |inputs| == |tags|
  {
    forall i :: 1 <= i < |inputs| ==>
      (tags[i] == tags[i - 1] && Follows(inputs[i - 1], inputs[i])) || NewTag(tags, i)
  }

  ghost predicate NewTag(tags: seq<nat>, i: nat)
    requires i < |tags|
  {
    forall k :: 0 <= k < i ==> tags[k] < tags[i]
  }

  ghost predicate Started(outputs: seq<Sent>, i: nat)
    requires i < |outputs|
  {
    forall k :: 0 <= k < i ==> EpochOf(outputs[k].block) < EpochOf(outputs[i].block)
  }

  /** Each output continues the one before, or opens a new epoch and says so. */
  ghost predicate Tiled(outputs: seq<Sent>)
  {
    && (forall i :: 0 <= i < |outputs| ==>
          && outputs[i].decimation >= 1 && outputs[i].block.startSample * outputs[i].decimation == outputs[i].inputIndex
          && outputs[i].block.count >= 1 && ClockOf(outputs[i].block).stride >= 1)
    && (0 < |outputs| ==> ClockOf(outputs[0].block).discontinuous)
    && (forall i :: 1 <= i < |outputs| ==>
          Follows(outputs[i - 1].block, outputs[i].block)
          || (Started(outputs, i) && ClockOf(outputs[i].block).discontinuous))
  }

  function BlocksOf(outputs: seq<Sent>): (blocks: seq<SampleBlock>)
    ensures |blocks| == |outputs|
  {
    seq(|outputs|, i requires 0 <= i < |outputs| => outputs[i].block)
  }

  /** An output is marked discontinuous exactly when its epoch is new. */
  lemma DiscontinuousIffNewEpoch(outputs: seq<Sent>, i: nat)
    requires Tiled(outputs) && i < |outputs|
    ensures ClockOf(outputs[i].block).discontinuous <==> Started(outputs, i)
  {
    if i > 0 {
      var a, b := outputs[i - 1].block, outputs[i].block;
      assert Follows(a, b) || (Started(outputs, i) && ClockOf(b).discontinuous);
      assert Started(outputs, i) ==> EpochOf(a) < EpochOf(b);
    }
  }

  /** What a channel publishes is a disciplined run, so its consumers detect every loss. */
  lemma OutputsAreDisciplined(outputs: seq<Sent>)
    requires Tiled(outputs)
    ensures Disciplined(BlocksOf(outputs))
  {
    var run := BlocksOf(outputs);
    forall i | 1 <= i < |run| ensures Advances(run[i - 1], run[i]) || FreshEpoch(run, i) {
      if Started(outputs, i) {
        forall k | 0 <= k < i ensures EpochOf(run[k]) != EpochOf(run[i]) {
          assert EpochOf(outputs[k].block) < EpochOf(outputs[i].block);
        }
      }
    }
  }

  /**
   Losses on the way in are not stitched together: the blocks handled within one
   output epoch, of those a lossy queue let through, are an unbroken piece of
   the wideband run.
   */
  lemma {:induction false} EpochInputsAreWhole(run: seq<SampleBlock>, kept: seq<nat>, tags: seq<nat>, i: nat, j: nat)
    requires Disciplined(run) && Selection(run, kept) && |tags| == |kept|
    requires Chained(Received(run, kept), tags)
    requires i <= j < |kept| && tags[i] == tags[j]
    ensures kept[j] == kept[i] + (j - i)
    decreases j
  {
    if i < j {
      var inputs := Received(run, kept);
      assert (tags[j] == tags[j - 1] && Follows(inputs[j - 1], inputs[j])) || NewTag(tags, j);
      NoHiddenLoss(run, kept[j - 1], kept[j]);
      EpochInputsAreWhole(run, kept, tags, i, j - 1);
    }
  }

  // ---------------------------------------------------------------------
  // What one block owes its channel
  // ---------------------------------------------------------------------

  /** Sample `n` of the stream lies in the block and on the channel's grid. */
  predicate Due(block: SampleBlock, decimation: nat, n: nat)
    requires decimation >= 1
  {
    block.startSample <= n < block.startSample + block.count && n % decimation == 0
  }

  /** The end of the block and the stride of the output fit their fields. */
  predicate Publishable(block: SampleBlock, decimation: nat)
  {
    && ClockOf(block).sourceIndex + block.count * ClockOf(block).stride <= U64_MAX
    && ClockOf(block).stride * decimation <= U32_MAX
  }

  ghost predicate Owes(block: SampleBlock, decimation: nat)
    requires decimation >= 1
  {
    Publishable(block, decimation) && exists n :: Due(block, decimation, n)
  }

  /** `out` holds exactly the due samples of the block, numbered on the grid, each with its own source index. */
  ghost predicate Decimated(block: SampleBlock, decimation: nat, out: SampleBlock)
    requires decimation >= 1
  {
    var clock := ClockOf(block);
    var first := out.startSample * decimation;
    && Due(block, decimation, first) && (forall n :: Due(block, decimation, n) ==> first <= n)
    && (forall m: nat :: Holds(out, m) <==> Due(block, decimation, m * decimation))
    && out.capture == Some(CaptureClock(
         EpochOf(out), clock.sourceIndex + (first - block.startSample) * clock.stride, clock.sourceRate,
         clock.stride * decimation, clock.origin, ClockOf(out).discontinuous))
    && out.productSession == block.productSession && out.sampleRate == block.sampleRate / decimation
  }

  /** Sample number `m` of an output stream lies in the block. */
  predicate Holds(out: SampleBlock, m: nat)
  {
    out.startSample <= m < out.startSample + out.count
  }

  /** With the first due sample `skip` samples in, those due are the next `count` on the grid. */
  lemma DueAre(block: SampleBlock, decimation: nat, skip: nat, q: nat, m: nat)
    requires decimation >= 1 && skip < decimation && q * decimation == block.startSample + skip
    ensures Due(block, decimation, m * decimation) <==> q <= m < q + DueCount(skip, block.count, decimation)
  {
    var count := DueCount(skip, block.count, decimation);
    DivModUnique(m * decimation, decimation, m, 0);
    if m < q {
      MulGap(decimation, m, q);
    } else {
      assert m * decimation == q * decimation + (m - q) * decimation;
      BeyondCount(skip, block.count, decimation, m - q);
    }
  }

  lemma BeyondCount(skip: nat, n: nat, decimation: nat, k: nat)
    requires decimation >= 1
    ensures skip + k * decimation < n <==> k < DueCount(skip, n, decimation)
  {
    if n > skip {
      var count := CeilDiv(n - skip, decimation);
      CeilDivBounds(n - skip, decimation);
      if k < count {
        ProductMonotone(k, count - 1, decimation);
      } else {
        ProductMonotone(count, k, decimation);
      }
    }
  }

  // ---------------------------------------------------------------------
  // Where a channel stands between blocks
  // ---------------------------------------------------------------------

  /** The stream position at the first sample of a block. */
  function HeadOf(block: SampleBlock): StreamEnd
  {
    StreamEnd(block.startSample, ClockOf(block), block.sampleRate, block.centerFreq)
  }

  /** The last output ends exactly where the next one, `skip` samples on, will start. */
  ghost predicate Reaches(b: SampleBlock, end: StreamEnd, skip: nat, decimation: nat, center: nat)
    requires decimation >= 1
  {
    var clock := ClockOf(b);
    && (b.startSample + b.count) * decimation == end.sample + skip
    && clock.sourceIndex + b.count * clock.stride == end.clock.sourceIndex + skip * end.clock.stride
    && clock.stride == end.clock.stride * decimation && clock.stride <= U32_MAX
    && clock.sourceRate == end.clock.sourceRate && clock.sourceRate > 0 && clock.origin == end.clock.origin
    && b.sampleRate == end.rate / decimation && b.centerFreq == center
  }

  /** What a channel remembers between blocks, with the record of what it has handled and published. */
  datatype Standing = Standing(
    inputs: seq<SampleBlock>,
    tags: seq<nat>,
    factors: seq<nat>,
    outputs: seq<Sent>,
    last: Option<StreamEnd>,
    epoch: nat,
    pending: bool,
    skip: nat,
    decimation: nat,
    center: nat)
  {
    /**
     The record of inputs is chained, that of outputs tiled and of their epochs, and no
     epoch is beyond the one in force.
     */
    ghost predicate Recorded()
    {
      && decimation >= 1 && |inputs| == |tags| == |factors|
      && Accounted()
      && Chained(inputs, tags) && (forall i :: 0 <= i < |tags| ==> tags[i] <= epoch)
      && Tiled(outputs) && (forall i :: 0 <= i < |outputs| ==>
            EpochOf(outputs[i].block) <= epoch && EpochOf(outputs[i].block) in tags)
    }

    /** Whatever an input owed at the decimation then in force, one output of its epoch holds. */
    ghost predicate Accounted()
      requires |inputs| == |tags| == |factors|
    {
      forall k :: 0 <= k < |inputs| ==> factors[k] >= 1 && (Owes(inputs[k], factors[k]) ==> Delivered(k))
    }

    ghost predicate Delivered(k: nat)
      requires k < |inputs| && |inputs| == |tags| == |factors| && factors[k] >= 1
    {
      exists j :: 0 <= j < |outputs|
        && EpochOf(outputs[j].block) == tags[k] && Decimated(inputs[k], factors[k], outputs[j].block)
    }

    /** The output epoch in force has published. */
    predicate Announced()
    {
      outputs != [] && EpochOf(outputs[|outputs| - 1].block) == epoch
    }

    /** Everything is in step with the stream position `end`. */
    ghost predicate StandsAt(end: StreamEnd)
      requires decimation >= 1
    {
      && skip < decimation && (end.sample + skip) % decimation == 0
      && end.clock.sourceRate > 0
      && pending == !Announced()
      && (Announced() ==> Reaches(outputs[|outputs| - 1].block, end, skip, decimation, center))
    }

    /** The remembered end is that of the last input, or cannot be met again. */
    ghost predicate Remembers()
    {
      last.Some? ==>
        inputs != [] && |inputs| == |tags|
        && match EndOf(inputs[|inputs| - 1])
           case Some(end) => last.value == end && tags[|tags| - 1] == epoch && decimation >= 1 && StandsAt(end)
           case None => Overran(inputs, last.value)
    }

    ghost predicate Sound() { Recorded() && Remembers() }

    /** A block about to be run is the next of its epoch or opens a new one. */
    ghost predicate Primed(block: SampleBlock)
    {
      && Recorded()
      && Usable(block) && Fits(block) && StandsAt(HeadOf(block))
      && ((inputs != [] && epoch == tags[|tags| - 1] && Follows(inputs[|inputs| - 1], block)) || AllBelow(tags, epoch))
      && (last.Some? ==> exists k :: 0 <= k < |inputs| && EpochOf(inputs[k]) == last.value.clock.epoch)
    }

    /** The standing after running a block, whose end is `later`, with `out` published. */
    function After(block: SampleBlock, later: Option<CaptureClock>, out: Option<SampleBlock>): Standing
      requires decimation >= 1
    {
      Standing(
        inputs + [block], tags + [epoch], factors + [decimation], outputs + Records(out, block, skip, decimation),
        if later.Some?
        then Some(StreamEnd(block.startSample + block.count, later.value, block.sampleRate, block.centerFreq))
        else last,
        epoch, pending && out.None?, SkipAfter(skip, block.count, decimation), decimation, center)
    }

    /** The channel handled the block before this one, and this one follows it. */
    predicate Continued(block: SampleBlock)
    {
      last.Some? && inputs != [] && Follows(inputs[|inputs| - 1], block)
    }

    /** A new epoch opened at a block. */
    function Restarted(block: SampleBlock, epoch: nat): Standing
      requires decimation >= 1
    {
      this.(epoch := epoch, pending := true, skip := FirstOffset(block.startSample, decimation))
    }

    /** Ready to run a block: as before if it continues the stream, otherwise restarted. */
    function Entered(block: SampleBlock, epoch: nat): Standing
      requires decimation >= 1
    {
      if Continued(block) then this else Restarted(block, epoch)
    }

    /**
     Handling a usable block with the output epoch then in force: the epoch is
     new unless the block follows the last one, and what is published is
     recorded.
     */
    predicate Handled(block: SampleBlock, newEpoch: nat, out: Option<SampleBlock>, after: Standing)
      requires decimation >= 1
    {
      var ready := Entered(block, newEpoch);
      && (if Continued(block) then newEpoch == epoch else newEpoch > epoch)
      && out == ready.Publishes(block)
      && after == ready.After(block, OffsetSamples(ClockOf(block), block.count), out)
    }

    /**
     What handling a usable block means to a consumer: the epoch goes on exactly
     if the block follows the last one and the stream was not broken since; a
     block comes out exactly if one is owed, with exactly what is owed, and it is
     announced exactly if it is the first of its epoch; and the stream is
     remembered up to the end of the block.
     */
    ghost predicate Serves(block: SampleBlock, newEpoch: nat, out: Option<SampleBlock>, end: Option<StreamEnd>)
      requires decimation >= 1
    {
      && (newEpoch == epoch <==> last.Some? && inputs != [] && Follows(inputs[|inputs| - 1], block))
      && (out.Some? <==> Owes(block, decimation))
      && (out.Some? ==>
            && Decimated(block, decimation, out.value)
            && EpochOf(out.value) == newEpoch && out.value.centerFreq == center
            && (ClockOf(out.value).discontinuous <==>
                  forall k :: 0 <= k < |outputs| ==> EpochOf(outputs[k].block) != newEpoch))
      && end == if EndOf(block).Some? then EndOf(block) else last
    }

    /** The block that running `block` publishes. */
    function Publishes(block: SampleBlock): Option<SampleBlock>
      requires decimation >= 1
    {
      if skip < block.count && OffsetSamples(ClockOf(block), block.count).Some?
          && ClockOf(block).stride * decimation <= U32_MAX
      then Some(OutputBlock(block, skip, DueCount(skip, block.count, decimation), decimation, epoch, pending, center))
      else None
    }
  }

  function Records(out: Option<SampleBlock>, block: SampleBlock, first: nat, decimation: nat): seq<Sent>
  {
    if out.Some? then [Sent(out.value, block.startSample + first, decimation)] else []
  }

  ghost predicate AllBelow(tags: seq<nat>, tag: nat)
  {
    forall k :: 0 <= k < |tags| ==> tags[k] < tag
  }

  ghost predicate Overran(inputs: seq<SampleBlock>, stale: StreamEnd)
    requires inputs != []
  {
    var block := inputs[|inputs| - 1];
    && ClockOf(block).sourceIndex + block.count * ClockOf(block).stride > U64_MAX
    && exists k :: 0 <= k < |inputs| && EpochOf(inputs[k]) == stale.clock.epoch
  }

  /** The index arithmetic of one decimated block. */
  lemma BlockArithmetic(s: nat, f: nat, n: nat, c: nat, left: nat, d: nat, index: nat, stride: nat)
    requires d >= 1 && left + n == f + c * d && (s + f) % d == 0
    ensures (s + f) / d * d == s + f
    ensures ((s + f) / d + c) * d == s + n + left && (s + n + left) % d == 0
    ensures index + f * stride + c * (stride * d) == index + n * stride + left * stride
  {
    var q := (s + f) / d;
    assert s + f == d * q;
    assert (q + c) * d == q * d + c * d;
    assert s + n + left == d * (q + c);
    DivModUnique(s + n + left, d, q + c, 0);
    assert (left + n) * stride == (f + c * d) * stride;
    assert (f + c * d) * stride == f * stride + c * (stride * d);
  }

  /** A block out of the stream's order cannot continue an end that was overrun. */
  lemma StaleNeverContinues(inputs: seq<SampleBlock>, stale: StreamEnd, block: SampleBlock)
    requires inputs != [] && Overran(inputs, stale) && Disciplined(inputs + [block]) && Fits(block)
    ensures !ContinuesFrom(Some(stale), block)
  {
    var run := inputs + [block];
    var n := |inputs|;
    assert Advances(run[n - 1], run[n]) || FreshEpoch(run, n);
    var k :| 0 <= k < |inputs| && EpochOf(inputs[k]) == stale.clock.epoch;
    assert run[k] == inputs[k];
  }

  lemma InputsGrow(inputs: seq<SampleBlock>, tags: seq<nat>, block: SampleBlock, tag: nat)
    requires |inputs| == |tags| && Chained(inputs, tags)
    requires inputs != [] ==>
      (tag == tags[|tags| - 1] && Follows(inputs[|inputs| - 1], block)) || forall k :: 0 <= k < |tags| ==> tags[k] < tag
    ensures Chained(inputs + [block], tags + [tag])
  {
    var more, labels := inputs + [block], tags + [tag];
    forall i | 1 <= i < |more|
      ensures (labels[i] == labels[i - 1] && Follows(more[i - 1], more[i])) || NewTag(labels, i)
    {
      if i < |inputs| {
        assert (tags[i] == tags[i - 1] && Follows(inputs[i - 1], inputs[i])) || NewTag(tags, i);
      }
    }
  }

  lemma OutputsGrow(outputs: seq<Sent>, sent: Sent)
    requires Tiled(outputs)
    requires sent.decimation >= 1 && sent.block.startSample * sent.decimation == sent.inputIndex
    requires sent.block.count >= 1 && ClockOf(sent.block).stride >= 1
    requires (outputs != [] && Follows(outputs[|outputs| - 1].block, sent.block))
          || (ClockOf(sent.block).discontinuous && forall k :: 0 <= k < |outputs| ==>
              EpochOf(outputs[k].block) < EpochOf(sent.block))
    ensures Tiled(outputs + [sent])
  {
    var more := outputs + [sent];
    forall i | 1 <= i < |more|
      ensures Follows(more[i - 1].block, more[i].block) || (Started(more, i) && ClockOf(more[i].block).discontinuous)
    {
      if i < |outputs| {
        var a, b := outputs[i - 1].block, outputs[i].block;
        assert Follows(a, b) || (Started(outputs, i) && ClockOf(b).discontinuous);
        assert Started(outputs, i) ==> Started(more, i);
      }
    }
  }

  /** A block's last sample lies before its end, whatever fits at the end fits before it. */
  lemma Within(f: nat, n: nat, index: nat, stride: nat)
    requires f <= n
    ensures index + f * stride <= index + n * stride
  {
    assert (n - f) * stride >= 0;
  }

  /** The test made at run time is that the block follows the last one handled, and then the channel is in step. */
  lemma ContinuedIsPrimed(s: Standing, block: SampleBlock)
    requires s.Sound() && ContinuesFrom(s.last, block) && Usable(block) && Fits(block)
    requires Disciplined(s.inputs + [block])
    ensures s.Continued(block) && s.Primed(block)
    ensures s.last == EndOf(s.inputs[|s.inputs| - 1])
  {
    var n := |s.inputs| - 1;
    if EndOf(s.inputs[n]).None? {
      StaleNeverContinues(s.inputs, s.last.value, block);
    } else {
      assert EpochOf(s.inputs[n]) == s.last.value.clock.epoch;
      assert s.StandsAt(HeadOf(block));
    }
  }

  lemma NotContinued(s: Standing, block: SampleBlock)
    requires s.Sound() && !ContinuesFrom(s.last, block)
    ensures !s.Continued(block)
  {
  }

  lemma RestartedIsPrimed(s: Standing, block: SampleBlock, epoch: nat)
    requires s.Sound() && Usable(block) && Fits(block) && epoch > s.epoch
    ensures s.Restarted(block, epoch).Primed(block)
  {
    if s.last.Some? && EndOf(s.inputs[|s.inputs| - 1]).Some? {
      assert EpochOf(s.inputs[|s.inputs| - 1]) == s.last.value.clock.epoch;
    }
  }

  /** The record after running a block. */
  lemma RunRecords(s: Standing, block: SampleBlock)
    requires s.Primed(block)
    ensures Chained(s.inputs + [block], s.tags + [s.epoch])
    ensures var t := s.tags + [s.epoch]; forall i :: 0 <= i < |t| ==> t[i] <= s.epoch
  {
    InputsGrow(s.inputs, s.tags, block, s.epoch);
  }

  lemma RunPublishes(s: Standing, block: SampleBlock, out: SampleBlock)
    requires s.Primed(block) && s.Publishes(block) == Some(out)
    ensures EpochOf(out) == s.epoch && Tiled(s.outputs + [Sent(out, block.startSample + s.skip, s.decimation)])
  {
    var clock := ClockOf(block);
    var count := DueCount(s.skip, block.count, s.decimation);
    var sent := Sent(out, block.startSample + s.skip, s.decimation);
    var left := SkipAfter(s.skip, block.count, s.decimation);
    BlockArithmetic(block.startSample, s.skip, block.count, count, left, s.decimation, clock.sourceIndex, clock.stride);
    CeilDivBounds(block.count - s.skip, s.decimation);
    PositiveProduct(clock.stride, s.decimation);
    Within(s.skip, block.count, clock.sourceIndex, clock.stride);
    if s.Announced() {
      ReachedIsFollowed(s.outputs[|s.outputs| - 1].block, block, s.skip, count, s.decimation, s.epoch, s.center);
    } else {
      NotAnnounced(s.outputs, s.epoch);
    }
    OutputsGrow(s.outputs, sent);
  }

  /** The last of tiled outputs carries the greatest epoch. */
  lemma NotAnnounced(outputs: seq<Sent>, epoch: nat)
    requires Tiled(outputs) && (forall i :: 0 <= i < |outputs| ==> EpochOf(outputs[i].block) <= epoch)
    requires outputs != [] ==> EpochOf(outputs[|outputs| - 1].block) != epoch
    ensures forall k :: 0 <= k < |outputs| ==> EpochOf(outputs[k].block) < epoch
  {
    forall k | 0 <= k < |outputs| ensures EpochOf(outputs[k].block) < epoch {
      EpochsRise(outputs, k, |outputs| - 1);
    }
  }

  lemma {:induction false} EpochsRise(outputs: seq<Sent>, i: nat, j: nat)
    requires Tiled(outputs) && i <= j < |outputs|
    ensures EpochOf(outputs[i].block) <= EpochOf(outputs[j].block)
    decreases j
  {
    if i < j {
      EpochsRise(outputs, i, j - 1);
      assert Follows(outputs[j - 1].block, outputs[j].block)
          || (Started(outputs, j) && ClockOf(outputs[j].block).discontinuous);
      if Started(outputs, j) {
        assert EpochOf(outputs[j - 1].block) < EpochOf(outputs[j].block);
      }
    }
  }

  /** Running a block moves what the last output reaches up to from its head to its end. */
  lemma ReachMoves(
      b: SampleBlock, block: SampleBlock, end: StreamEnd, skip: nat, left: nat, decimation: nat, center: nat)
    requires decimation >= 1 && Reaches(b, HeadOf(block), skip, decimation, center) && Usable(block)
    requires EndOf(block) == Some(end) && left + block.count == skip
    ensures Reaches(b, end, left, decimation, center)
  {
    var stride := ClockOf(block).stride;
    assert skip * stride == left * stride + block.count * stride by {
      assert (left + block.count) * stride == left * stride + block.count * stride;
    }
  }

  /** What is published reaches up to the end of the block it came from. */
  lemma PublishedReaches(s: Standing, block: SampleBlock, end: StreamEnd, out: SampleBlock)
    requires s.Primed(block) && EndOf(block) == Some(end) && s.Publishes(block) == Some(out)
    ensures Reaches(out, end, SkipAfter(s.skip, block.count, s.decimation), s.decimation, s.center)
  {
    var clock := ClockOf(block);
    BlockArithmetic(block.startSample, s.skip, block.count, DueCount(s.skip, block.count, s.decimation),
                    SkipAfter(s.skip, block.count, s.decimation), s.decimation, clock.sourceIndex, clock.stride);
  }

  /** The next output falls due on a multiple of the decimation after the block too. */
  lemma SkipAligned(s: Standing, block: SampleBlock)
    requires s.Primed(block)
    ensures var left := SkipAfter(s.skip, block.count, s.decimation);
      left < s.decimation && (block.startSample + block.count + left) % s.decimation == 0
  {
    var clock := ClockOf(block);
    var count := DueCount(s.skip, block.count, s.decimation);
    BlockArithmetic(block.startSample, s.skip, block.count, count,
                    SkipAfter(s.skip, block.count, s.decimation), s.decimation, clock.sourceIndex, clock.stride);
  }

  lemma RunStands(s: Standing, block: SampleBlock, end: StreamEnd)
    requires s.Primed(block) && EndOf(block) == Some(end)
    ensures s.After(block, Some(end.clock), s.Publishes(block)).StandsAt(end)
  {
    var out := s.Publishes(block);
    SkipAligned(s, block);
    if out.Some? {
      PublishedReaches(s, block, end, out.value);
    } else if s.Announced() {
      var b := s.outputs[|s.outputs| - 1].block;
      if s.skip >= block.count {
        ReachMoves(b, block, end, s.skip, s.skip - block.count, s.decimation, s.center);
      }
    }
  }

  /** A primed block is published exactly when it owes something, and exactly what it owes. */
  lemma PublishesOwed(s: Standing, block: SampleBlock)
    requires s.Primed(block)
    ensures s.Publishes(block).Some? <==> Owes(block, s.decimation)
    ensures s.Publishes(block).Some? ==>
      var out := s.Publishes(block).value;
      && Decimated(block, s.decimation, out) && EpochOf(out) == s.epoch && out.centerFreq == s.center
      && (ClockOf(out).discontinuous <==> !s.Announced())
  {
    var q := FirstOnGrid(block.startSample + s.skip, s.decimation);
    DueFrom(block, s.decimation, s.skip, q);
    PublishesWhen(s, block);
    if s.Publishes(block).Some? {
      StampedRight(block, s.skip, q, s.decimation, s.epoch, s.pending, s.center, s.Publishes(block).value);
    }
  }

  lemma FirstOnGrid(n: nat, d: nat) returns (q: nat)
    requires d >= 1 && n % d == 0
    ensures q * d == n
  {
    q := n / d;
  }

  lemma PublishesWhen(s: Standing, block: SampleBlock)
    requires s.decimation >= 1
    ensures s.Publishes(block).Some? <==> s.skip < block.count && Publishable(block, s.decimation)
    ensures s.Publishes(block).Some? ==>
      s.Publishes(block).value == OutputBlock(
        block, s.skip, DueCount(s.skip, block.count, s.decimation), s.decimation, s.epoch, s.pending, s.center)
  {
    StrideWithin(ClockOf(block).sourceIndex, block.count, ClockOf(block).stride);
  }

  /** The due samples of a block whose first is `skip` samples in. */
  lemma DueFrom(block: SampleBlock, d: nat, skip: nat, q: nat)
    requires d >= 1 && skip < d && q * d == block.startSample + skip
    ensures forall m: nat :: Due(block, d, m * d) <==> q <= m < q + DueCount(skip, block.count, d)
    ensures (exists n :: Due(block, d, n)) <==> skip < block.count
    ensures skip < block.count ==> Due(block, d, q * d) && forall n: nat :: Due(block, d, n) ==> q * d <= n
  {
    forall m: nat ensures Due(block, d, m * d) <==> q <= m < q + DueCount(skip, block.count, d) {
      DueAre(block, d, skip, q, m);
    }
    DueIffWithin(skip, block.count, d);
    forall n: nat | Due(block, d, n) ensures q * d <= n && skip < block.count {
      var m := n / d;
      assert n == m * d;
      assert Due(block, d, m * d);
      ProductMonotone(q, m, d);
    }
    if skip < block.count {
      assert Due(block, d, q * d);
    }
  }

  lemma StampedRight(
      block: SampleBlock, skip: nat, q: nat, d: nat, epoch: nat, pending: bool, center: nat, out: SampleBlock)
    requires d >= 1 && skip < block.count && q * d == block.startSample + skip
    requires forall m: nat :: Due(block, d, m * d) <==> q <= m < q + DueCount(skip, block.count, d)
    requires Due(block, d, q * d) && forall n: nat :: Due(block, d, n) ==> q * d <= n
    requires out == OutputBlock(block, skip, DueCount(skip, block.count, d), d, epoch, pending, center)
    ensures Decimated(block, d, out) && EpochOf(out) == epoch && out.centerFreq == center
    ensures ClockOf(out).discontinuous == pending
  {
    DivModUnique(block.startSample + skip, d, q, 0);
    assert out.startSample == q;
  }

  /** A block handled after entering serves the channel's consumers as it should. */
  lemma HandledServes(s: Standing, block: SampleBlock, newEpoch: nat, out: Option<SampleBlock>, after: Standing)
    requires s.Recorded() && s.Entered(block, newEpoch).Primed(block) && s.Handled(block, newEpoch, out, after)
    ensures s.Serves(block, newEpoch, out, after.last)
  {
    var ready := s.Entered(block, newEpoch);
    PublishesOwed(ready, block);
    FirstOfEpoch(s.outputs, newEpoch);
    assert ready.Announced() <==> s.outputs != [] && EpochOf(s.outputs[|s.outputs| - 1].block) == newEpoch;
    assert ready.decimation == s.decimation && ready.center == s.center && ready.epoch == newEpoch;
  }

  /** An epoch has published exactly if the last output is of it. */
  lemma FirstOfEpoch(outputs: seq<Sent>, epoch: nat)
    requires Tiled(outputs) && forall i :: 0 <= i < |outputs| ==> EpochOf(outputs[i].block) <= epoch
    ensures (outputs != [] && EpochOf(outputs[|outputs| - 1].block) == epoch)
       <==> exists k :: 0 <= k < |outputs| && EpochOf(outputs[k].block) == epoch
  {
    if outputs == [] || EpochOf(outputs[|outputs| - 1].block) != epoch {
      NotAnnounced(outputs, epoch);
    }
  }

  lemma StrideWithin(index: nat, n: nat, stride: nat)
    ensures index + n * stride <= U64_MAX ==> n * stride <= U64_MAX
  {
  }

  /** What was delivered stays delivered. */
  lemma DeliveredStays(s: Standing, t: Standing)
    requires |s.inputs| == |s.tags| == |s.factors| && |t.inputs| == |t.tags| == |t.factors|
    requires s.inputs <= t.inputs && s.tags <= t.tags && s.factors <= t.factors && s.outputs <= t.outputs
    requires s.Accounted()
    ensures forall k :: 0 <= k < |s.inputs| ==>
      t.factors[k] >= 1 && (Owes(t.inputs[k], t.factors[k]) ==> t.Delivered(k))
  {
    forall k | 0 <= k < |s.inputs| && Owes(t.inputs[k], t.factors[k]) ensures t.Delivered(k) {
      assert s.Delivered(k);
      var j :| 0 <= j < |s.outputs|
        && EpochOf(s.outputs[j].block) == s.tags[k] && Decimated(s.inputs[k], s.factors[k], s.outputs[j].block);
      assert t.outputs[j] == s.outputs[j];
    }
  }

  lemma RunAccounts(s: Standing, block: SampleBlock, t: Standing)
    requires s.Primed(block) && |t.inputs| == |t.tags| == |t.factors|
    requires t.inputs == s.inputs + [block] && t.tags == s.tags + [s.epoch] && t.factors == s.factors + [s.decimation]
    requires t.outputs == s.outputs + Records(s.Publishes(block), block, s.skip, s.decimation)
    ensures t.Accounted()
  {
    PublishesOwed(s, block);
    DeliveredStays(s, t);
    var k := |s.inputs|;
    if Owes(block, s.decimation) {
      assert t.outputs[|s.outputs|].block == s.Publishes(block).value;
      assert t.Delivered(k);
    }
  }

  /** Within an epoch outputs are numbered one after another. */
  lemma {:induction false} NumbersRise(outputs: seq<Sent>, i: nat, j: nat)
    requires Tiled(outputs) && i < j < |outputs| && EpochOf(outputs[i].block) == EpochOf(outputs[j].block)
    ensures outputs[i].block.startSample + outputs[i].block.count <= outputs[j].block.startSample
    decreases j
  {
    assert !Started(outputs, j);
    EpochsRise(outputs, i, j - 1);
    EpochsRise(outputs, j - 1, j);
    if i < j - 1 {
      NumbersRise(outputs, i, j - 1);
    }
  }

  /**
   Over any run, every multiple of the decimation among the inputs of an output
   epoch is held by exactly one published output of that epoch, unless the block
   it came in was one whose end or output stride does not fit.
   */
  lemma EachMultipleOnce(s: Standing, k: nat, n: nat) returns (j: nat)
    requires s.Recorded() && k < |s.inputs| && Due(s.inputs[k], s.factors[k], n)
    requires Publishable(s.inputs[k], s.factors[k])
    ensures j < |s.outputs| && EpochOf(s.outputs[j].block) == s.tags[k] && Holds(s.outputs[j].block, n / s.factors[k])
    ensures forall i :: 0 <= i < |s.outputs| && i != j && EpochOf(s.outputs[i].block) == s.tags[k] ==>
      !Holds(s.outputs[i].block, n / s.factors[k])
  {
    assert Owes(s.inputs[k], s.factors[k]) && s.Delivered(k);
    j := HolderOf(s.outputs, s.inputs[k], s.tags[k], s.factors[k], n);
  }

  lemma HolderOf(outputs: seq<Sent>, block: SampleBlock, tag: nat, d: nat, n: nat) returns (j: nat)
    requires Tiled(outputs) && d >= 1 && Due(block, d, n)
    requires exists i :: 0 <= i < |outputs| && EpochOf(outputs[i].block) == tag && Decimated(block, d, outputs[i].block)
    ensures j < |outputs| && EpochOf(outputs[j].block) == tag && Holds(outputs[j].block, n / d)
    ensures forall i :: 0 <= i < |outputs| && i != j && EpochOf(outputs[i].block) == tag ==>
      !Holds(outputs[i].block, n / d)
  {
    j :| 0 <= j < |outputs| && EpochOf(outputs[j].block) == tag && Decimated(block, d, outputs[j].block);
    DueIsHeld(block, d, outputs[j].block, n);
    HeldOnce(outputs, j, n / d);
  }

  lemma DueIsHeld(block: SampleBlock, d: nat, out: SampleBlock, n: nat)
    requires d >= 1 && Decimated(block, d, out) && Due(block, d, n)
    ensures Holds(out, n / d)
  {
    assert n == n / d * d;
    assert Due(block, d, n / d * d);
  }

  lemma HeldOnce(outputs: seq<Sent>, j: nat, m: nat)
    requires Tiled(outputs) && j < |outputs| && Holds(outputs[j].block, m)
    ensures forall i :: 0 <= i < |outputs| && i != j && EpochOf(outputs[i].block) == EpochOf(outputs[j].block) ==>
      !Holds(outputs[i].block, m)
  {
    forall i | 0 <= i < |outputs| && i != j && EpochOf(outputs[i].block) == EpochOf(outputs[j].block)
      ensures !Holds(outputs[i].block, m)
    {
      if i < j {
        NumbersRise(outputs, i, j);
      } else {
        NumbersRise(outputs, j, i);
      }
    }
  }

  lemma RunKeepsRecord(s: Standing, block: SampleBlock, out: Option<SampleBlock>, t: Standing)
    requires s.Primed(block) && out == s.Publishes(block)
    requires t.inputs == s.inputs + [block] && t.tags == s.tags + [s.epoch] && t.factors == s.factors + [s.decimation]
    requires t.outputs == s.outputs + Records(out, block, s.skip, s.decimation)
    requires t.epoch == s.epoch && t.decimation == s.decimation
    ensures t.Recorded()
  {
    RunRecords(s, block);
    RunAccounts(s, block, t);
    RunTiles(s, block, out, t.outputs);
    forall i | 0 <= i < |t.outputs|
      ensures EpochOf(t.outputs[i].block) <= t.epoch && EpochOf(t.outputs[i].block) in t.tags
    {
      if i < |s.outputs| {
        assert EpochOf(s.outputs[i].block) in s.tags;
      } else {
        assert t.tags[|s.tags|] == s.epoch;
      }
    }
  }

  lemma RunTiles(s: Standing, block: SampleBlock, out: Option<SampleBlock>, outputs: seq<Sent>)
    requires s.Primed(block) && out == s.Publishes(block)
    requires outputs == s.outputs + Records(out, block, s.skip, s.decimation)
    ensures Tiled(outputs) && forall i :: |s.outputs| <= i < |outputs| ==> EpochOf(outputs[i].block) == s.epoch
  {
    if out.Some? {
      RunPublishes(s, block, out.value);
    } else {
      assert outputs == s.outputs;
    }
  }

  /** Running a primed block keeps everything sound. */
  lemma RunKeeps(s: Standing, block: SampleBlock)
    requires s.Primed(block)
    ensures s.After(block, OffsetSamples(ClockOf(block), block.count), s.Publishes(block)).Sound()
  {
    var later := OffsetSamples(ClockOf(block), block.count);
    var t := s.After(block, later, s.Publishes(block));
    RunKeepsRecord(s, block, s.Publishes(block), t);
    if later.Some? {
      RunStands(s, block, EndOf(block).value);
    } else if s.last.Some? {
      var k :| 0 <= k < |s.inputs| && EpochOf(s.inputs[k]) == s.last.value.clock.epoch;
      assert t.inputs[k] == s.inputs[k];
    }
  }

  /** Breaking the stream keeps the record. */
  lemma BrokenIsSound(s: Standing, t: Standing)
    requires s.Sound() && t.last == None && t.decimation >= 1 && t.epoch == s.epoch
    requires t.inputs == s.inputs && t.tags == s.tags && t.factors == s.factors && t.outputs == s.outputs
    ensures t.Sound()
  {
    DeliveredStays(s, t);
  }

  // ---------------------------------------------------------------------
  // The channel
  // ---------------------------------------------------------------------

  class VirtualChannel {
    var centerFreq: nat
    var outputRate: nat
    var nco: Nco
    var decimation: nat
    var skip: nat
    var lastInput: Option<StreamEnd>
    var outputEpoch: nat
    var pendingDiscontinuity: bool
    /** Usable blocks handled so far with the output epoch in force, and blocks published. */
    ghost var inputs: seq<SampleBlock>
    ghost var tags: seq<nat>
    ghost var factors: seq<nat>
    ghost var outputs: seq<Sent>

    ghost function Now(): Standing
      reads this
    {
      Standing(
        inputs, tags, factors, outputs, lastInput, outputEpoch, pendingDiscontinuity, skip, decimation, centerFreq)
    }

    ghost predicate Valid()
      reads this, nco
    {
      && Now().Sound()
      && (lastInput.Some? && EndOf(inputs[|inputs| - 1]).Some? ==> Tuned(nco, lastInput.value, centerFreq))
    }

    constructor (widebandCenter: nat, widebandRate: nat, centerFreq: nat, decimation: nat, epochs: EpochCounter)
      requires epochs.Valid() && decimation >= 1 && widebandRate >= 1
      modifies epochs
      ensures Valid() && fresh(nco) && epochs.Valid()
      ensures inputs == [] && outputs == [] && outputEpoch < epochs.next
    {
      var epoch := epochs.Fresh();
      this.centerFreq, this.decimation := centerFreq, decimation;
      outputRate := widebandRate / decimation;
      nco := new Nco(centerFreq - widebandCenter, 1, widebandRate);
      skip := 0;
      lastInput := None;
      outputEpoch := epoch;
      pendingDiscontinuity := true;
      inputs, tags, factors, outputs := [], [], [], [];
    }

    /** Move to another frequency and decimation on the same bus. */
    method Retune(widebandCenter: nat, widebandRate: nat, centerFreq: nat, decimation: nat)
      requires Valid() && decimation >= 1 && widebandRate >= 1
      modifies this
      ensures Valid() && fresh(nco)
      ensures Now() == old(Now()).(last := None, pending := true, skip := 0, center := centerFreq,
          decimation := decimation)
    {
      ghost var was := Now();
      this.centerFreq, this.decimation := centerFreq, decimation;
      outputRate := widebandRate / decimation;
      nco := new Nco(centerFreq - widebandCenter, 1, widebandRate);
      skip := 0;
      lastInput := None;
      pendingDiscontinuity := true;
      BrokenIsSound(was, Now());
    }

    /** The wideband capture moved under the channel. */
    method RecenterWideband(widebandCenter: nat, widebandRate: nat)
      requires Valid() && widebandRate >= 1
      modifies this
      ensures Valid() && fresh(nco)
      ensures Now() == old(Now()).(last := None, pending := true)
    {
      ghost var was := Now();
      nco := new Nco(centerFreq - widebandCenter, 1, widebandRate);
      lastInput := None;
      pendingDiscontinuity := true;
      BrokenIsSound(was, Now());
    }

    /** Start a new output epoch at a block that does not continue the stream. */
    method Restart(block: SampleBlock, epochs: EpochCounter)
      requires Now().Recorded() && epochs.Valid() && outputEpoch < epochs.next && Usable(block)
      requires this as object != epochs
      modifies this`outputEpoch, this`pendingDiscontinuity, this`skip, this`nco, epochs
      ensures epochs.Valid() && outputEpoch < epochs.next && outputEpoch > old(outputEpoch)
      ensures fresh(nco) && Tuned(nco, HeadOf(block), centerFreq)
      ensures Now() == old(Now()).Restarted(block, outputEpoch)
    {
      var clock := ClockOf(block);
      outputEpoch := epochs.Fresh();
      pendingDiscontinuity := true;
      skip := FirstOffset(block.startSample, decimation);
      nco := new Nco(centerFreq - block.centerFreq, clock.stride, clock.sourceRate);
      nco.Seek(clock.sourceIndex, clock.sourceRate);
    }

    /** Run a primed block through the oscillator and the decimator. */
    method Run(block: SampleBlock) returns (out: Option<SampleBlock>, phases: seq<real>)
      requires Now().Primed(block) && Tuned(nco, HeadOf(block), centerFreq)
      modifies this, nco
      ensures Valid() && nco == old(nco)
      ensures out == old(Now().Publishes(block))
      ensures Now() == old(Now()).After(block, OffsetSamples(ClockOf(block), block.count), out)
      ensures Exact(phases, centerFreq - block.centerFreq, block)
    {
      var clock := ClockOf(block);
      ghost var before := Now();
      RunKeeps(before, block);
      phases := MixBlock(nco, block, centerFreq);
      out := Decimate(block);
    }

    /** Decimate a block and stamp what comes out. */
    method Decimate(block: SampleBlock) returns (out: Option<SampleBlock>)
      requires decimation >= 1
      modifies this`skip, this`lastInput, this`pendingDiscontinuity, this`outputRate, this`inputs, this`tags,
          this`factors, this`outputs
      ensures out == old(Now().Publishes(block))
      ensures Now() == old(Now()).After(block, OffsetSamples(ClockOf(block), block.count), out)
    {
      var clock := ClockOf(block);
      var first := skip;
      var count := DueCount(skip, block.count, decimation);
      DueIffWithin(skip, block.count, decimation);
      skip := SkipAfter(skip, block.count, decimation);
      inputs, tags, factors := inputs + [block], tags + [outputEpoch], factors + [decimation];
      assert outputs + [] == outputs;
      var later := OffsetSamples(clock, block.count);
      if later.None? {
        return None;
      }
      lastInput := Some(StreamEnd(block.startSample + block.count, later.value, block.sampleRate, block.centerFreq));
      if count == 0 {
        return None;
      }
      if clock.stride * decimation > U32_MAX {
        return None;
      }
      var sent := OutputBlock(block, first, count, decimation, outputEpoch, pendingDiscontinuity, centerFreq);
      pendingDiscontinuity := false;
      outputRate := block.sampleRate / decimation;
      outputs := outputs + [Sent(sent, block.startSample + first, decimation)];
      out := Some(sent);
    }

    /** Carry on the epoch if the block follows the last one, otherwise open a new one. */
    method Enter(block: SampleBlock, epochs: EpochCounter)
      requires Valid() && Fits(block) && this as object != epochs && epochs.Valid() && outputEpoch < epochs.next
      requires Usable(block) && Disciplined(inputs + [block])
      modifies this`outputEpoch, this`pendingDiscontinuity, this`skip, this`nco, epochs
      ensures epochs.Valid() && outputEpoch < epochs.next && (nco == old(nco) || fresh(nco))
      ensures Now() == old(Now()).Entered(block, outputEpoch)
      ensures Now().Primed(block) && Tuned(nco, HeadOf(block), centerFreq)
      ensures !old(Now()).Continued(block) ==> outputEpoch > old(outputEpoch)
    {
      ghost var was := Now();
      if ContinuesFrom(lastInput, block) {
        ContinuedIsPrimed(was, block);
      } else {
        NotContinued(was, block);
        Restart(block, epochs);
        RestartedIsPrimed(was, block, outputEpoch);
      }
    }

    /** A block without a usable clock breaks the stream. */
    method Forget()
      requires Valid()
      modifies this`lastInput, this`pendingDiscontinuity
      ensures Valid() && Now() == old(Now()).(last := None, pending := true)
    {
      pendingDiscontinuity := true;
      lastInput := None;
    }

    /** Handle one block with a usable clock. */
    method Handle(block: SampleBlock, epochs: EpochCounter) returns (out: Option<SampleBlock>, phases: seq<real>)
      requires Valid() && Fits(block) && this as object != epochs && epochs.Valid() && outputEpoch < epochs.next
      requires Usable(block) && Disciplined(inputs + [block])
      modifies this, nco, epochs
      ensures Valid() && (nco == old(nco) || fresh(nco)) && epochs.Valid() && outputEpoch < epochs.next
      ensures Exact(phases, centerFreq - block.centerFreq, block)
      ensures old(Now()).Handled(block, outputEpoch, out, Now())
      ensures old(Now()).Entered(block, outputEpoch).Primed(block)
    {
      Enter(block, epochs);
      out, phases := Run(block);
    }

    /** Handle one wideband block, whatever was lost before it. */
    method Process(block: SampleBlock, epochs: EpochCounter) returns (out: Option<SampleBlock>, phases: seq<real>)
      requires Valid() && Fits(block) && this as object != epochs && epochs.Valid() && outputEpoch < epochs.next
      requires Usable(block) ==> Disciplined(inputs + [block])
      modifies this, nco, epochs
      ensures Valid() && (nco == old(nco) || fresh(nco)) && epochs.Valid() && outputEpoch < epochs.next
      ensures Usable(block) ==> Exact(phases, centerFreq - block.centerFreq, block)
      ensures if Usable(block) then old(Now()).Handled(block, outputEpoch, out, Now())
              else out == None && Now() == old(Now()).(last := None, pending := true)
      ensures Usable(block) ==> old(Now()).Serves(block, outputEpoch, out, lastInput)
    {
      if Usable(block) {
        ghost var was := Now();
        out, phases := Handle(block, epochs);
        HandledServes(was, block, outputEpoch, out, Now());
      } else {
        Forget();
        out, phases := None, [];
      }
    }
  }

  lemma DueIffWithin(skip: nat, n: nat, decimation: nat)
    requires decimation >= 1
    ensures DueCount(skip, n, decimation) > 0 <==> skip < n
  {
    if skip < n {
      CeilDivBounds(n - skip, decimation);
    }
  }

  /** The oscillator is at the exact phase of a stream position, for the channel at `center`. */
  ghost predicate Tuned(nco: Nco, end: StreamEnd, center: int)
    reads nco
  {
    && end.clock.sourceRate > 0
    && nco.offset == center - end.center
    && nco.increment == StepPerSample(nco.offset, end.clock.stride, end.clock.sourceRate)
    && SameTurn(nco.phase, PhaseAt(nco.offset, end.clock.sourceIndex, end.clock.sourceRate))
    && (HalfTurn(nco.increment) ==> HalfTurn(nco.phase))
  }

  /** Mix a block: every sample gets the phase of its own absolute source index. */
  method MixBlock(nco: Nco, block: SampleBlock, center: int) returns (phases: seq<real>)
    requires Usable(block) && Tuned(nco, HeadOf(block), center)
    modifies nco
    ensures Exact(phases, center - block.centerFreq, block)
    ensures EndOf(block).Some? ==> Tuned(nco, EndOf(block).value, center)
  {
    var clock := ClockOf(block);
    ghost var start := nco.phase;
    phases := nco.Mix(block.count);
    forall i | 0 <= i <= block.count
      ensures SameTurn(Ahead(start, nco.increment, i),
          PhaseAt(nco.offset, clock.sourceIndex + i * clock.stride, clock.sourceRate))
    {
      AheadIsPhaseAt(start, nco.offset, clock.sourceIndex, clock.stride, clock.sourceRate, i);
    }
    forall i | 0 <= i < block.count
      ensures SameTurn(phases[i], PhaseAt(nco.offset, clock.sourceIndex + i * clock.stride, clock.sourceRate))
    {
      SameTurnTransitive(phases[i], Ahead(start, nco.increment, i),
                         PhaseAt(nco.offset, clock.sourceIndex + i * clock.stride, clock.sourceRate));
    }
    SameTurnTransitive(nco.phase, Ahead(start, nco.increment, block.count),
                       PhaseAt(nco.offset, clock.sourceIndex + block.count * clock.stride, clock.sourceRate));
  }

  /**
   Sample `i` of a block is mixed at the exact phase of its absolute source
   index, within half a turn when the step per sample is.
   */
  ghost predicate Exact(phases: seq<real>, offset: int, block: SampleBlock)
    requires ClockOf(block).sourceRate > 0
  {
    && PhasesExact(phases, offset, block)
    && (HalfTurn(StepPerSample(offset, ClockOf(block).stride, ClockOf(block).sourceRate)) ==> AllHalfTurn(phases))
  }

  ghost predicate PhasesExact(phases: seq<real>, offset: int, block: SampleBlock)
    requires ClockOf(block).sourceRate > 0
  {
    && |phases| == block.count
    && forall i :: 0 <= i < |phases| ==>
         SameTurn(phases[i], PhaseAt(offset, ClockOf(block).sourceIndex + i * ClockOf(block).stride,
             ClockOf(block).sourceRate))
  }

  /** The block published for `count` outputs, the first `f` samples into `block`. */
  function OutputBlock(
      block: SampleBlock, f: nat, count: nat, decimation: nat, epoch: nat, pending: bool, center: nat): SampleBlock
    requires decimation >= 1
  {
    var clock := ClockOf(block);
    SampleBlock(
      block.productSession,
      Some(CaptureClock(epoch, clock.sourceIndex + f * clock.stride, clock.sourceRate, clock.stride * decimation,
          clock.origin, pending)),
      (block.startSample + f) / decimation,
      block.sampleRate / decimation,
      center,
      count)
  }

  /** An output reached up to by the last one follows it. */
  lemma ReachedIsFollowed(
      b: SampleBlock, block: SampleBlock, f: nat, count: nat, decimation: nat, epoch: nat, center: nat)
    requires decimation >= 1 && (block.startSample + f) % decimation == 0
    requires Reaches(b, HeadOf(block), f, decimation, center) && EpochOf(b) == epoch && Usable(block)
    requires block.startSample + f <= U64_MAX && ClockOf(block).sourceIndex + f * ClockOf(block).stride <= U64_MAX
    ensures Follows(b, OutputBlock(block, f, count, decimation, epoch, false, center))
  {
    DivModUnique(block.startSample + f, decimation, b.startSample + b.count, 0);
    assert b.startSample + b.count <= block.startSample + f by {
      if b.startSample + b.count > 0 {
        MulGap(b.startSample + b.count, 0, decimation);
      }
    }
    assert ClockOf(b).stride >= 1 by { PositiveProduct(ClockOf(block).stride, decimation); }
  }

  /** The first offset whose absolute index is a multiple of the decimation. */
  function FirstOffset(start: nat, d: nat): (offset: nat)
    requires d >= 1
    ensures offset < d && (start + offset) % d == 0
  {
    FirstAligned(start, d);
    (d - start % d) % d
  }

  lemma FirstAligned(start: nat, d: nat)
    requires d >= 1
    ensures 0 <= (d - start % d) % d < d && (start + (d - start % d) % d) % d == 0
  {
    var q, r := start / d, start % d;
    assert start == d * q + r;
    if r == 0 {
      DivModUnique(d, d, 1, 0);
    } else {
      DivModUnique(d - r, d, 0, d - r);
      assert start + (d - r) == d * (q + 1);
      DivModUnique(start + (d - r), d, q + 1, 0);
    }
  }
}
