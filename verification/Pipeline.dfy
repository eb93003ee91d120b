/** From the device to a consumer of a virtual channel, through two lossy queues. */
module Pipeline {
  import opened Capture
  import Ingest
  import Channel

  /** Blocks that each continue the one before are of one epoch. */
  lemma {:induction false} FollowingSharesEpoch(run: seq<SampleBlock>, kept: seq<nat>, i: nat, j: nat)
    requires Selection(run, kept) && i <= j < |kept|
    requires forall k :: i < k <= j ==> Follows(run[kept[k - 1]], run[kept[k]])
    ensures EpochOf(run[kept[i]]) == EpochOf(run[kept[j]])
    decreases j
  {
    if i < j {
      FollowingSharesEpoch(run, kept, i, j - 1);
      assert Follows(run[kept[j - 1]], run[kept[j]]);
    }
  }

  /**
   Lost samples are never stitched into a continuous stream.  `log` is what
   ingestion published, `arrived` the blocks of it a channel handled, `s` where
   the channel stands then, and `received` the outputs of it that reached a
   consumer.  If the consumer finds every block from its i-th to its j-th to
   continue the one before, then no output between them was lost, all are of one
   epoch in which the channel handled blocks, and those wideband blocks are an
   unbroken piece of what ingestion published.
   */
  lemma LossIsNeverStitched(log: seq<Ingest.Published>, arrived: seq<nat>, s: Channel.Standing,
                            received: seq<nat>, i: nat, j: nat)
    requires Ingest.Kept(log)
    requires Selection(Ingest.BlocksOf(log), arrived) && s.inputs == Received(Ingest.BlocksOf(log), arrived)
    requires s.Recorded() && Selection(Channel.BlocksOf(s.outputs), received) && i <= j < |received|
    requires forall k :: i < k <= j ==>
      Follows(Channel.BlocksOf(s.outputs)[received[k - 1]], Channel.BlocksOf(s.outputs)[received[k]])
    ensures forall k :: i <= k <= j ==>
      && received[k] == received[i] + (k - i)
      && EpochOf(s.outputs[received[k]].block) == EpochOf(s.outputs[received[i]].block)
    ensures EpochOf(s.outputs[received[i]].block) in s.tags
    ensures forall a, b ::
      0 <= a <= b < |arrived| && s.tags[a] == s.tags[b] == EpochOf(s.outputs[received[i]].block) ==>
      arrived[b] == arrived[a] + (b - a)
  {
    var wide, narrow := Ingest.BlocksOf(log), Channel.BlocksOf(s.outputs);
    Ingest.PublishesDisciplined(log);
    Channel.OutputsAreDisciplined(s.outputs);
    forall k | i <= k <= j
      ensures received[k] == received[i] + (k - i)
      ensures EpochOf(s.outputs[received[k]].block) == EpochOf(s.outputs[received[i]].block)
    {
      ObservedRunIsWhole(narrow, received, i, k);
      FollowingSharesEpoch(narrow, received, i, k);
    }
    forall a, b | 0 <= a <= b < |arrived| && s.tags[a] == s.tags[b] == EpochOf(s.outputs[received[i]].block)
      ensures arrived[b] == arrived[a] + (b - a)
    {
      Channel.EpochInputsAreWhole(wide, arrived, s.tags, a, b);
    }
  }
}
