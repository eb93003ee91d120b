/** Acquisition clocks and the sample blocks that carry them. */
module Capture {
  import opened Wrappers

  const U64_MAX: nat := 0xFFFF_FFFF_FFFF_FFFF
  const U32_MAX: nat := 0xFFFF_FFFF

  datatype CaptureClock = CaptureClock(
    epoch: nat,
    sourceIndex: nat,
    sourceRate: nat,
    stride: nat,
    origin: Option<nat>,
    discontinuous: bool)

  /** The clock `samples` later, unless the index would not fit. */
  function OffsetSamples(clock: CaptureClock, samples: nat): (later: Option<CaptureClock>)
    ensures later.Some? <==> clock.sourceIndex + samples * clock.stride <= U64_MAX && samples * clock.stride <= U64_MAX
    ensures later.Some? ==> later.value == clock.(sourceIndex := clock.sourceIndex + samples * clock.stride)
  {
    if samples * clock.stride > U64_MAX then None
    else if clock.sourceIndex + samples * clock.stride > U64_MAX then None
    else Some(clock.(sourceIndex := clock.sourceIndex + samples * clock.stride))
  }

  /** A block of `count` consecutive samples; sample values play no part in continuity. */
  datatype SampleBlock = SampleBlock(
    productSession: nat,
    capture: Option<CaptureClock>,
    startSample: nat,
    sampleRate: nat,
    centerFreq: nat,
    count: nat)

  /** The block's clock, or a relative one for an unannotated block. */
  function ClockOf(block: SampleBlock): CaptureClock
  {
    if block.capture.Some? then block.capture.value
    else CaptureClock(0, block.startSample, block.sampleRate, 1, None, false)
  }

  // ---------------------------------------------------------------------
  // Adjacency
  // ---------------------------------------------------------------------

  /** Where the stream stands after a block. */
  datatype StreamEnd = StreamEnd(sample: nat, clock: CaptureClock, rate: nat, center: nat)

  /** The end of a block, unless its clock is unusable or its end does not fit. */
  function EndOf(block: SampleBlock): Option<StreamEnd>
  {
    var clock := ClockOf(block);
    var later := OffsetSamples(clock, block.count);
    if block.startSample + block.count <= U64_MAX && later.Some? && clock.sourceRate > 0 && clock.stride > 0
    then Some(StreamEnd(block.startSample + block.count, later.value, block.sampleRate, block.centerFreq))
    else None
  }

  /** Whether a block carries on exactly where the stream stands. */
  predicate ContinuesFrom(end: Option<StreamEnd>, block: SampleBlock)
  {
    var clock := ClockOf(block);
    && !clock.discontinuous
    && end.Some?
    && end.value.sample == block.startSample
    && end.value.rate == block.sampleRate
    && end.value.center == block.centerFreq
    && end.value.clock.epoch == clock.epoch
    && end.value.clock.sourceIndex == clock.sourceIndex
    && end.value.clock.sourceRate == clock.sourceRate
    && end.value.clock.stride == clock.stride
    && end.value.clock.origin == clock.origin
  }

  /** Block `b` follows block `a` without a gap. */
  predicate Follows(a: SampleBlock, b: SampleBlock)
  {
    ContinuesFrom(EndOf(a), b)
  }

  /** Detects missing samples and capture changes at a consumer's own queue. */
  class SampleContinuity {
    var next: Option<StreamEnd>
    ghost var last: Option<SampleBlock>

    ghost predicate Valid()
      reads this
    {
      next == if last.Some? then EndOf(last.value) else None
    }

    constructor ()
      ensures Valid() && last == None
    {
      next, last := None, None;
    }

    /** Whether this block follows the one observed before it. */
    method Observe(block: SampleBlock) returns (contiguous: bool)
      requires Valid()
      modifies this
      ensures Valid() && last == Some(block)
      ensures contiguous <==> old(last).Some? && Follows(old(last).value, block)
    {
      contiguous := ContinuesFrom(next, block);
      next := EndOf(block);
      last := Some(block);
    }
  }

  /** Process-wide source of capture epochs; zero is reserved for unannotated input. */
  class EpochCounter {
    var next: nat

    ghost predicate Valid()
      reads this
    {
      next >= 1
    }

    constructor ()
      ensures Valid()
    {
      next := 1;
    }

    method Fresh() returns (epoch: nat)
      requires Valid()
      modifies this
      ensures Valid() && epoch == old(next) && next == old(next) + 1
    {
      epoch := next;
      next := next + 1;
    }
  }

  // ---------------------------------------------------------------------
  // What a publisher keeps over a whole run
  // ---------------------------------------------------------------------

  function EpochOf(block: SampleBlock): nat { ClockOf(block).epoch }

  /** Block `b` comes next in `a`'s epoch, no earlier than where `a` ended. */
  predicate Advances(a: SampleBlock, b: SampleBlock)
  {
    EpochOf(b) == EpochOf(a)
    && ClockOf(b).sourceIndex >= ClockOf(a).sourceIndex + a.count * ClockOf(a).stride
  }

  ghost predicate FreshEpoch(run: seq<SampleBlock>, i: nat)
    requires i < |run|
  {
    forall k :: 0 <= k < i ==> EpochOf(run[k]) != EpochOf(run[i])
  }

  /**
   No block is empty, clocks move forward by at least the block within an epoch,
   and every other block opens an epoch never used before.
   */
  ghost predicate Disciplined(run: seq<SampleBlock>)
  {
    && (forall i :: 0 <= i < |run| ==> run[i].count >= 1 && ClockOf(run[i]).stride >= 1)
    && (forall i :: 1 <= i < |run| ==> Advances(run[i - 1], run[i]) || FreshEpoch(run, i))
  }

  /** The block before one of an epoch already seen is of that epoch too. */
  lemma EpochIsUnbroken(run: seq<SampleBlock>, a: nat, b: nat)
    requires Disciplined(run) && a < b < |run| && EpochOf(run[a]) == EpochOf(run[b])
    ensures EpochOf(run[b - 1]) == EpochOf(run[b]) && Advances(run[b - 1], run[b])
  {
  }

  /** Within an epoch every later block starts strictly after every earlier one. */
  lemma {:induction false} IndexAdvances(run: seq<SampleBlock>, a: nat, b: nat)
    requires Disciplined(run) && a < b < |run| && EpochOf(run[a]) == EpochOf(run[b])
    ensures ClockOf(run[b]).sourceIndex >= ClockOf(run[a]).sourceIndex + run[a].count * ClockOf(run[a]).stride
        + (b - a - 1)
    decreases b
  {
    EpochIsUnbroken(run, a, b);
    if a < b - 1 {
      IndexAdvances(run, a, b - 1);
      PositiveProduct(run[b - 1].count, ClockOf(run[b - 1]).stride);
    }
  }

  lemma PositiveProduct(x: nat, y: nat)
    requires x >= 1 && y >= 1
    ensures x * y >= 1
  {
  }

  /**
   Loss is never hidden: of two blocks of one run, the later follows the earlier
   only if nothing was published between them.
   */
  lemma NoHiddenLoss(run: seq<SampleBlock>, a: nat, b: nat)
    requires Disciplined(run) && a < b < |run| && Follows(run[a], run[b])
    ensures b == a + 1
  {
    IndexAdvances(run, a, b);
  }

  /** The positions, in order, of the published blocks that a lossy queue let through. */
  ghost predicate Selection(run: seq<SampleBlock>, kept: seq<nat>)
  {
    && (forall i :: 0 <= i < |kept| ==> kept[i] < |run|)
    && (forall i, j :: 0 <= i < j < |kept| ==> kept[i] < kept[j])
  }

  /**
   A consumer that finds every block from `i` to `j` of what it received to
   follow the one before holds an unbroken piece of what was published.
   */
  lemma {:induction false} ObservedRunIsWhole(run: seq<SampleBlock>, kept: seq<nat>, i: nat, j: nat)
    requires Disciplined(run) && Selection(run, kept) && i <= j < |kept|
    requires forall k :: i < k <= j ==> Follows(run[kept[k - 1]], run[kept[k]])
    ensures kept[j] == kept[i] + (j - i)
    decreases j
  {
    if i < j {
      ObservedRunIsWhole(run, kept, i, j - 1);
      assert Follows(run[kept[j - 1]], run[kept[j]]);
      NoHiddenLoss(run, kept[j - 1], kept[j]);
    }
  }

  /** What a lossy queue lets through, in order. */
  function Received(run: seq<SampleBlock>, kept: seq<nat>): (blocks: seq<SampleBlock>)
    requires forall i :: 0 <= i < |kept| ==> kept[i] < |run|
    ensures |blocks| == |kept| && forall i :: 0 <= i < |kept| ==> blocks[i] == run[kept[i]]
  {
    seq(|kept|, i requires 0 <= i < |kept| => run[kept[i]])
  }

  /** Dropping blocks does not spoil the discipline. */
  lemma ReceivedIsDisciplined(run: seq<SampleBlock>, kept: seq<nat>)
    requires Disciplined(run) && Selection(run, kept)
    ensures Disciplined(Received(run, kept))
  {
    var blocks := Received(run, kept);
    forall i | 1 <= i < |blocks|
      ensures Advances(blocks[i - 1], blocks[i]) || FreshEpoch(blocks, i)
    {
      var a, b := kept[i - 1], kept[i];
      if EpochOf(run[a]) == EpochOf(run[b]) {
        IndexAdvances(run, a, b);
      } else {
        forall k | 0 <= k < i ensures EpochOf(blocks[k]) != EpochOf(blocks[i]) {
          if k < i - 1 && EpochOf(run[kept[k]]) == EpochOf(run[b]) {
            SameEpochBetween(run, kept[k], a, b);
          }
        }
      }
    }
  }

  /** An epoch, once left, is never met again. */
  lemma {:induction false} SameEpochBetween(run: seq<SampleBlock>, a: nat, m: nat, b: nat)
    requires Disciplined(run) && a <= m < b < |run| && EpochOf(run[a]) == EpochOf(run[b])
    ensures EpochOf(run[m]) == EpochOf(run[b])
    decreases b
  {
    EpochIsUnbroken(run, a, b);
    if m < b - 1 {
      SameEpochBetween(run, a, m, b - 1);
    }
  }
}
