/** The ingestion loop: the one owner of the source, and the clock of everything it publishes. */
module Ingest {
  import opened Wrappers
  import opened Capture

  /** What the source's getters report. */
  datatype Setting = Setting(frequency: nat, rate: nat, gain: real, mode: nat)

  datatype Status = Status(connected: bool, setting: Setting, error: Option<string>)

  /** How the source answered a setter, and where it was left. */
  datatype Answer =
    | Accepted(after: Setting)
    | Recovered(after: Setting, message: string)
    | Lost(after: Setting, message: string)

  /** What happened to the loop, in order; a read is noted with the source epoch of the read before it. */
  datatype Event =
    | Commanded(before: Setting, answer: Answer)
    | Heard(last: Option<nat>, supplied: Option<CaptureClock>)
    | GapReported

  /**
   A published block, the status verified at that moment, whether its clock is
   ingestion's own, and its place among the events.
   */
  datatype Published = Published(block: SampleBlock, verified: Status, own: bool, at: nat)

  // ---------------------------------------------------------------------
  // What the record of published blocks keeps
  // ---------------------------------------------------------------------

  /** A clock that ingestion made up itself: an index from the start of the epoch. */
  predicate SelfClocked(block: SampleBlock)
  {
    ClockOf(block) == CaptureClock(EpochOf(block), block.startSample, block.sampleRate, 1, None,
        ClockOf(block).discontinuous)
  }

  predicate Sized(entry: Published)
  {
    && entry.block.count >= 1 && ClockOf(entry.block).stride >= 1
    && ClockOf(entry.block).sourceIndex == entry.block.startSample && (entry.own ==> SelfClocked(entry.block))
    && entry.verified.connected
    && entry.block.sampleRate == entry.verified.setting.rate
          && entry.block.centerFreq == entry.verified.setting.frequency
  }

  /** Two neighbours of one epoch. */
  predicate Joined(a: Published, b: Published)
  {
    && Advances(a.block, b.block)
    && a.verified.setting == b.verified.setting && a.block.productSession == b.block.productSession
    && (b.own ==> b.block.startSample == a.block.startSample + a.block.count)
  }

  /** The first block of a new epoch. */
  ghost predicate Opens(log: seq<Published>, i: nat)
    requires i < |log|
  {
    && (forall k :: 0 <= k < i ==> EpochOf(log[k].block) < EpochOf(log[i].block))
    && ClockOf(log[i].block).discontinuous
    && (log[i].own ==> log[i].block.startSample == 0)
  }

  ghost predicate Kept(log: seq<Published>)
  {
    && (forall i :: 0 <= i < |log| ==> Sized(log[i]))
    && (0 < |log| ==> Opens(log, 0))
    && (forall i :: 1 <= i < |log| ==> Joined(log[i - 1], log[i]) || Opens(log, i))
  }

  lemma KeptGrows(log: seq<Published>, entry: Published)
    requires Kept(log) && Sized(entry)
    requires (log != [] && Joined(log[|log| - 1], entry))
          || (ClockOf(entry.block).discontinuous && (entry.own ==> entry.block.startSample == 0)
              && forall k :: 0 <= k < |log| ==> EpochOf(log[k].block) < EpochOf(entry.block))
    ensures Kept(log + [entry])
  {
    var more := log + [entry];
    forall i | 1 <= i < |more| ensures Joined(more[i - 1], more[i]) || Opens(more, i) {
      if i < |log| {
        assert Joined(log[i - 1], log[i]) || Opens(log, i);
        assert Opens(log, i) ==> Opens(more, i);
      }
    }
    if log != [] {
      assert Opens(log, 0);
    }
  }

  /**
   When a source stops clocking its reads, counting on from its last index is no
   step back exactly if its stride was one.
   */
  lemma CountingOnNeedsStrideOne(a: Published)
    requires Sized(a)
    ensures a.block.startSample + a.block.count >= ClockOf(a.block).sourceIndex
        + a.block.count * ClockOf(a.block).stride
       <==> ClockOf(a.block).stride == 1
  {
    if ClockOf(a.block).stride >= 2 {
      assert a.block.count * (ClockOf(a.block).stride - 2) >= 0;
    }
  }

  function BlocksOf(log: seq<Published>): (blocks: seq<SampleBlock>)
    ensures |blocks| == |log|
  {
    seq(|log|, i requires 0 <= i < |log| => log[i].block)
  }

  /** Everything ingestion publishes is a disciplined run, so no consumer can miss a loss. */
  lemma PublishesDisciplined(log: seq<Published>)
    requires Kept(log)
    ensures Disciplined(BlocksOf(log))
  {
    var run := BlocksOf(log);
    forall i | 1 <= i < |run| ensures Advances(run[i - 1], run[i]) || FreshEpoch(run, i) {
      assert Joined(log[i - 1], log[i]) || Opens(log, i);
    }
  }

  /** Within an epoch, every block comes after the one before it in the record. */
  lemma NeighboursJoin(log: seq<Published>, i: nat, j: nat)
    requires Kept(log) && i < j < |log| && EpochOf(log[i].block) == EpochOf(log[j].block)
    ensures Joined(log[j - 1], log[j])
  {
    assert Joined(log[j - 1], log[j]) || Opens(log, j);
  }

  /** All blocks of one epoch share frequency, rate, gain and product. */
  lemma {:induction false} EpochIsHomogeneous(log: seq<Published>, i: nat, j: nat)
    requires Kept(log) && i <= j < |log| && EpochOf(log[i].block) == EpochOf(log[j].block)
    ensures log[i].verified.setting == log[j].verified.setting
    ensures log[i].block.productSession == log[j].block.productSession
    ensures log[i].block.sampleRate == log[j].block.sampleRate && log[i].block.centerFreq == log[j].block.centerFreq
    decreases j
  {
    if i < j {
      NeighboursJoin(log, i, j);
      EpochIsHomogeneous(log, i, j - 1);
    }
  }

  /** The first block of an epoch, and it alone must be, is announced as discontinuous. */
  lemma FirstIsDiscontinuous(log: seq<Published>, i: nat)
    requires Kept(log) && i < |log| && FreshEpoch(BlocksOf(log), i)
    ensures ClockOf(log[i].block).discontinuous
  {
    if i > 0 {
      assert Joined(log[i - 1], log[i]) || Opens(log, i);
      assert BlocksOf(log)[i - 1] == log[i - 1].block;
    }
  }

  function Samples(log: seq<Published>, i: nat, j: nat): nat
    requires i <= j <= |log|
    decreases j
  {
    if i == j then 0 else Samples(log, i, j - 1) + log[j - 1].block.count
  }

  /** Without a source clock, an epoch is numbered from zero with no hole. */
  lemma {:induction false} ClocklessEpochTiles(log: seq<Published>, i: nat, j: nat)
    requires Kept(log) && i <= j < |log| && FreshEpoch(BlocksOf(log), i)
    requires EpochOf(log[i].block) == EpochOf(log[j].block) && forall k :: i <= k <= j ==> log[k].own
    ensures log[j].block.startSample == ClockOf(log[j].block).sourceIndex == Samples(log, i, j)
    decreases j
  {
    assert SelfClocked(log[j].block);
    if i < j {
      NeighboursJoin(log, i, j);
      ClocklessEpochTiles(log, i, j - 1);
    } else if i > 0 {
      assert BlocksOf(log)[i - 1] == log[i - 1].block;
      assert Joined(log[i - 1], log[i]) || Opens(log, i);
    }
  }

  /**
   Nothing lost is nothing missed: if an unmarked block starts just where its
   neighbour of the same epoch ended, on the same clock, a consumer sees it
   follow exactly when the stride is one.
   */
  lemma NoLossIsSeen(log: seq<Published>, i: nat)
    requires Kept(log) && 1 <= i < |log| && EpochOf(log[i - 1].block) == EpochOf(log[i].block)
    requires var a, b := log[i - 1].block, log[i].block;
      && EndOf(a).Some? && !ClockOf(b).discontinuous
      && ClockOf(b) == ClockOf(a).(sourceIndex := ClockOf(a).sourceIndex + a.count * ClockOf(a).stride,
            discontinuous := false)
    ensures Follows(log[i - 1].block, log[i].block) <==> ClockOf(log[i - 1].block).stride == 1
  {
    NeighboursJoin(log, i - 1, i);
    CountingOnNeedsStrideOne(log[i - 1]);
  }

  /** Blocks that ingestion clocks itself always follow one another within an epoch. */
  lemma OwnBlocksFollow(log: seq<Published>, i: nat)
    requires Kept(log) && 1 <= i < |log| && EpochOf(log[i - 1].block) == EpochOf(log[i].block)
    requires log[i - 1].own && log[i].own && EndOf(log[i - 1].block).Some? && !ClockOf(log[i].block).discontinuous
    ensures Follows(log[i - 1].block, log[i].block)
  {
    NeighboursJoin(log, i - 1, i);
    assert SelfClocked(log[i - 1].block) && SelfClocked(log[i].block);
  }

  // ---------------------------------------------------------------------
  // Product sessions
  // ---------------------------------------------------------------------

  /** The events that begin a new product: another frequency or rate, or another source epoch. */
  predicate Renews(e: Event)
  {
    match e
    case Commanded(before, Accepted(after)) => after.frequency != before.frequency || after.rate != before.rate
    case Heard(last, supplied) => SourceRestarted(last, supplied)
    case _ => false
  }

  predicate Quiet(events: seq<Event>, from: nat, to: nat)
    requires to <= |events|
  {
    forall k :: from <= k < to ==> !Renews(events[k])
  }

  /** A later session is at least an earlier one, and the same exactly if no event in between renewed it. */
  ghost predicate Renewed(events: seq<Event>, from: nat, to: nat, earlier: nat, later: nat)
    requires to <= |events|
  {
    earlier <= later && (earlier == later <==> Quiet(events, from, to))
  }

  ghost predicate Sessions(log: seq<Published>, events: seq<Event>, session: nat)
  {
    && (forall i :: 0 <= i < |log| ==> log[i].at < |events|)
    && (forall i :: 1 <= i < |log| ==> Successive(log[i - 1], log[i], events))
    && (log != [] ==>
          var last := log[|log| - 1];
          Renewed(events, last.at + 1, |events|, last.block.productSession, session))
  }

  ghost predicate Successive(a: Published, b: Published, events: seq<Event>)
    requires b.at < |events|
  {
    a.at < b.at && Renewed(events, a.at + 1, b.at + 1, a.block.productSession, b.block.productSession)
  }

  lemma EventAdds(log: seq<Published>, events: seq<Event>, session: nat, e: Event, next: nat)
    requires Sessions(log, events, session) && session <= next && (session == next <==> !Renews(e))
    ensures Sessions(log, events + [e], next)
  {
    var more := events + [e];
    forall i | 1 <= i < |log| ensures Successive(log[i - 1], log[i], more) {
      assert Successive(log[i - 1], log[i], events);
      StillRenewed(events, e, log[i - 1].at + 1, log[i].at + 1, log[i - 1].block.productSession,
                   log[i].block.productSession);
    }
    if log != [] {
      var last := log[|log| - 1];
      OneMoreEvent(events, e, last.at + 1, last.block.productSession, session, next);
    }
  }

  lemma StillRenewed(events: seq<Event>, e: Event, from: nat, to: nat, earlier: nat, later: nat)
    requires to <= |events| && Renewed(events, from, to, earlier, later)
    ensures Renewed(events + [e], from, to, earlier, later)
  {
    forall k | from <= k < to ensures (events + [e])[k] == events[k] {
    }
  }

  lemma OneMoreEvent(events: seq<Event>, e: Event, from: nat, earlier: nat, session: nat, next: nat)
    requires from <= |events| && Renewed(events, from, |events|, earlier, session)
    requires session <= next && (session == next <==> !Renews(e))
    ensures Renewed(events + [e], from, |events| + 1, earlier, next)
  {
    StillRenewed(events, e, from, |events|, earlier, session);
    assert (events + [e])[|events|] == e;
  }

  lemma PublishAdds(log: seq<Published>, events: seq<Event>, session: nat, entry: Published)
    requires events != [] && Sessions(log, events, session) && entry.at == |events| - 1
    requires entry.block.productSession == session
    requires log != [] ==> log[|log| - 1].at < |events| - 1
    ensures Sessions(log + [entry], events, session)
  {
    var more := log + [entry];
    forall i | 1 <= i < |more| ensures Successive(more[i - 1], more[i], events) {
      if i < |log| {
        assert Successive(log[i - 1], log[i], events);
      }
    }
  }

  /**
   Two published blocks belong to one product exactly if nothing renewed it in
   between; gaps and gain changes do not.
   */
  lemma {:induction false} ProductLasts(log: seq<Published>, events: seq<Event>, session: nat, i: nat, j: nat)
    requires Sessions(log, events, session) && i <= j < |log|
    ensures log[i].at <= log[j].at
    ensures Renewed(events, log[i].at + 1, log[j].at + 1, log[i].block.productSession, log[j].block.productSession)
    decreases j
  {
    if i < j {
      ProductLasts(log, events, session, i, j - 1);
      assert Successive(log[j - 1], log[j], events);
    }
  }

  // ---------------------------------------------------------------------
  // The loop, one event at a time
  // ---------------------------------------------------------------------

  class Ingestion {
    const epochs: EpochCounter
    var setting: Setting
    var status: Status
    var running: bool
    var sampleCounter: nat
    var captureEpoch: nat
    var productSession: nat
    var pendingDiscontinuity: bool
    var lastSourceEpoch: Option<nat>
    ghost var log: seq<Published>
    ghost var events: seq<Event>

    ghost predicate Valid()
      reads this, epochs
    {
      Working() && Sessions(log, events, productSession)
    }

    ghost predicate Working()
      reads this, epochs
    {
      && epochs.Valid() && captureEpoch < epochs.next && productSession < epochs.next
      && Kept(log) && (forall i :: 0 <= i < |log| ==> EpochOf(log[i].block) <= captureEpoch)
      && (running ==> status.connected && status.setting == setting)
      && InStep()
    }

    /** An epoch that has published goes on from its last block; one that has not is still to be announced. */
    ghost predicate InStep()
      reads this
    {
      if Announced()
      then
        var last := log[|log| - 1];
        && !pendingDiscontinuity
        && (running ==> last.verified.setting == setting) && last.block.productSession == productSession
        && sampleCounter == last.block.startSample + last.block.count
      else
        && pendingDiscontinuity && lastSourceEpoch == None && sampleCounter == 0
        && (forall i :: 0 <= i < |log| ==> EpochOf(log[i].block) < captureEpoch)
    }

    ghost predicate Announced()
      reads this
    {
      log != [] && EpochOf(log[|log| - 1].block) == captureEpoch
    }

    constructor (setting: Setting, epochs: EpochCounter)
      requires epochs.Valid()
      modifies epochs
      ensures Valid() && running && log == [] && events == [] && this.epochs == epochs
      ensures status == Status(true, setting, None)
    {
      this.epochs, this.setting := epochs, setting;
      status := Status(true, setting, None);
      running := true;
      sampleCounter := 0;
      var first := epochs.Fresh();
      var second := epochs.Fresh();
      captureEpoch, productSession := first, second;
      pendingDiscontinuity, lastSourceEpoch, log, events := true, None, [], [];
    }

    /** Retire the capture epoch: nothing published later continues what was published before. */
    method NewEpoch()
      requires Kept(log) && epochs.Valid() && captureEpoch < epochs.next
      requires forall i :: 0 <= i < |log| ==> EpochOf(log[i].block) <= captureEpoch
      modifies this`captureEpoch, this`pendingDiscontinuity, this`lastSourceEpoch, this`sampleCounter, epochs
      ensures epochs.Valid() && old(captureEpoch) < old(epochs.next) <= captureEpoch < epochs.next
      ensures forall i :: 0 <= i < |log| ==> EpochOf(log[i].block) < captureEpoch
      ensures pendingDiscontinuity && lastSourceEpoch == None && sampleCounter == 0 && !Announced()
    {
      captureEpoch := epochs.Fresh();
      sampleCounter, lastSourceEpoch, pendingDiscontinuity := 0, None, true;
    }

    /** A hardware command ran: what it left behind decides which identities survive. */
    method Command(answer: Answer)
      requires Valid() && running
      modifies this, epochs
      ensures Valid() && log == old(log) && events == old(events) + [Commanded(old(setting), answer)]
      ensures running == !answer.Lost?
      ensures answer.Accepted? ==> status == Status(true, answer.after, None)
      ensures answer.Recovered? ==> status == Status(true, answer.after, Some(answer.message))
      ensures answer.Lost? ==> status == Status(false, old(status.setting), Some(answer.message))
      ensures (captureEpoch == old(captureEpoch))
         <==> answer.Lost? || (answer.Accepted? && answer.after == old(setting))
      ensures captureEpoch != old(captureEpoch) ==> captureEpoch >= old(epochs.next)
      ensures (productSession == old(productSession)) <==>
        !(answer.Accepted? && (answer.after.frequency != old(setting.frequency)
            || answer.after.rate != old(setting.rate)))
      ensures productSession != old(productSession) ==> productSession >= old(epochs.next)
    {
      ghost var session, e := productSession, Commanded(setting, answer);
      Execute(answer);
      EventAdds(log, events, session, e, productSession);
      events := events + [e];
    }

    method Execute(answer: Answer)
      requires Working() && running
      modifies this`setting, this`status, this`running, this`sampleCounter, this`captureEpoch, this`productSession
      modifies this`pendingDiscontinuity, this`lastSourceEpoch, epochs
      ensures Working() && running == !answer.Lost?
      ensures answer.Accepted? ==> status == Status(true, answer.after, None)
      ensures answer.Recovered? ==> status == Status(true, answer.after, Some(answer.message))
      ensures answer.Lost? ==> status == Status(false, old(status.setting), Some(answer.message))
      ensures (captureEpoch == old(captureEpoch))
         <==> answer.Lost? || (answer.Accepted? && answer.after == old(setting))
      ensures captureEpoch != old(captureEpoch) ==> captureEpoch >= old(epochs.next)
      ensures (productSession == old(productSession)) <==> !Renews(Commanded(old(setting), answer))
      ensures productSession != old(productSession) ==> productSession >= old(epochs.next)
    {
      var before := setting;
      setting := answer.after;
      match answer {
        case Accepted(after) =>
          Accept(before);
        case Recovered(after, message) =>
          NewEpoch();
          status := Status(true, after, Some(message));
        case Lost(after, message) =>
          status := status.(connected := false, error := Some(message));
          running := false;
      }
    }

    /** The setter succeeded; `before` is what the getters said beforehand. */
    method Accept(before: Setting)
      requires epochs.Valid() && captureEpoch < epochs.next && productSession < epochs.next && running
      requires Kept(log) && (forall i :: 0 <= i < |log| ==> EpochOf(log[i].block) <= captureEpoch)
      requires before == setting ==> InStep()
      modifies this`captureEpoch, this`productSession, this`pendingDiscontinuity, this`lastSourceEpoch,
          this`sampleCounter, this`status, epochs
      ensures Working() && status == Status(true, setting, None)
      ensures (captureEpoch == old(captureEpoch)) <==> before == setting
      ensures captureEpoch != old(captureEpoch) ==> captureEpoch >= old(epochs.next)
      ensures (productSession == old(productSession))
         <==> before.frequency == setting.frequency && before.rate == setting.rate
      ensures productSession != old(productSession) ==> productSession >= old(epochs.next)
    {
      if before != setting {
        NewEpoch();
      }
      if before.frequency != setting.frequency || before.rate != setting.rate {
        productSession := epochs.Fresh();
      }
      lastSourceEpoch := None;
      status := Status(true, setting, None);
    }

    /**
     What a source promises: its clock does not run backwards within one of its
     epochs, and if it stops clocking its reads their stride was one.
     */
    ghost predicate SourceClock(clock: Option<CaptureClock>)
      reads this
    {
      && (clock.Some? ==> clock.value.stride >= 1)
      && (clock.Some? && lastSourceEpoch == Some(clock.value.epoch) && log != [] ==>
            var last := log[|log| - 1].block;
            clock.value.sourceIndex >= ClockOf(last).sourceIndex + last.count * ClockOf(last).stride)
      && (clock.None? && Announced() ==> ClockOf(log[|log| - 1].block).stride == 1)
    }

    /** A read returned samples: publish them. */
    method Read(n: nat, supplied: Option<CaptureClock>)
      requires Valid() && running && n >= 1 && SourceClock(supplied)
      modifies this`sampleCounter, this`captureEpoch, this`productSession, this`pendingDiscontinuity,
          this`lastSourceEpoch
      modifies this`log, this`events, epochs
      ensures Valid() && events == old(events) + [Heard(old(lastSourceEpoch), supplied)]
      ensures |log| == |old(log)| + 1 && log[..|old(log)|] == old(log)
      ensures var entry := log[|log| - 1];
        && entry.verified == status && entry.block.count == n && entry.own == supplied.None?
              && entry.at == |old(events)|
        && entry.block.productSession == productSession && EpochOf(entry.block) == captureEpoch
        && entry.block.startSample == (if supplied.Some? then supplied.value.sourceIndex else old(sampleCounter))
        && (supplied.Some? ==> Renamed(ClockOf(entry.block), supplied.value))
        && (ClockOf(entry.block).discontinuous <==>
              (supplied.Some? && supplied.value.discontinuous) || Unpublished(old(log), captureEpoch))
      ensures lastSourceEpoch == if supplied.Some? then Some(supplied.value.epoch) else old(lastSourceEpoch)
      ensures (captureEpoch == old(captureEpoch))
         <==> supplied.None? || old(lastSourceEpoch) == Some(supplied.value.epoch)
      ensures (productSession == old(productSession)) <==> !SourceRestarted(old(lastSourceEpoch), supplied)
    {
      var clock: CaptureClock;
      ghost var session, e := productSession, Heard(lastSourceEpoch, supplied);
      if supplied.Some? {
        AdoptSourceEpoch(supplied.value.epoch);
        sampleCounter := supplied.value.sourceIndex;
        clock := supplied.value;
      } else {
        clock := CaptureClock(captureEpoch, sampleCounter, setting.rate, 1, None, false);
      }
      if supplied.None? && Announced() {
        CountingOnNeedsStrideOne(log[|log| - 1]);
      }
      EventAdds(log, events, session, e, productSession);
      Append(clock.(epoch := captureEpoch, discontinuous := clock.discontinuous || pendingDiscontinuity), n,
             supplied.None?, e);
    }

    method Append(clock: CaptureClock, n: nat, own: bool, ghost e: Event)
      requires epochs.Valid() && captureEpoch < epochs.next && productSession < epochs.next && running
      requires status.connected && status.setting == setting && n >= 1
      requires Kept(log) && (forall i :: 0 <= i < |log| ==> EpochOf(log[i].block) <= captureEpoch)
      requires clock.stride >= 1 && clock.epoch == captureEpoch && clock.sourceIndex == sampleCounter
      requires own ==> clock == CaptureClock(captureEpoch, sampleCounter, setting.rate, 1, None, clock.discontinuous)
      requires Continues(clock, own)
          || (clock.discontinuous && Unpublished(log, captureEpoch) && (own ==> sampleCounter == 0))
      requires Sessions(log, events + [e], productSession) && forall i :: 0 <= i < |log| ==> log[i].at < |events|
      modifies this`sampleCounter, this`pendingDiscontinuity, this`log, this`events
      ensures Valid() && events == old(events) + [e] && sampleCounter == old(sampleCounter) + n
      ensures log == old(log) + [Published(SampleBlock(productSession, Some(clock), old(sampleCounter), setting.rate,
          setting.frequency, n),
                                           status, own, |old(events)|)]
    {
      var block := SampleBlock(productSession, Some(clock), sampleCounter, setting.rate, setting.frequency, n);
      ghost var entry := Published(block, status, own, |events|);
      KeptGrows(log, entry);
      PublishAdds(log, events + [e], productSession, entry);
      pendingDiscontinuity := false;
      sampleCounter := sampleCounter + n;
      log, events := log + [entry], events + [e];
    }

    /** The next block goes on from the last one published. */
    ghost predicate Continues(clock: CaptureClock, own: bool)
      reads this
    {
      Announced() && log[|log| - 1].verified.setting == setting && log[|log| - 1].block.productSession == productSession
      && var last := log[|log| - 1].block;
         && (own ==> sampleCounter == last.startSample + last.count)
         && clock.sourceIndex >= ClockOf(last).sourceIndex + last.count * ClockOf(last).stride
    }

    /** A source epoch not seen on the last read is a new capture epoch, and a new product if it replaces another. */
    method AdoptSourceEpoch(epoch: nat)
      requires Working() && running
      modifies this`captureEpoch, this`productSession, this`pendingDiscontinuity, this`lastSourceEpoch, epochs
      ensures epochs.Valid() && captureEpoch < epochs.next && productSession < epochs.next
      ensures lastSourceEpoch == Some(epoch)
      ensures old(lastSourceEpoch) == Some(epoch) ==>
        captureEpoch == old(captureEpoch) && pendingDiscontinuity == old(pendingDiscontinuity)
      ensures old(lastSourceEpoch) != Some(epoch) ==>
        pendingDiscontinuity && captureEpoch > old(captureEpoch) && forall i :: 0 <= i < |log| ==>
            EpochOf(log[i].block) < captureEpoch
      ensures productSession >= old(productSession)
      ensures (productSession == old(productSession))
         <==> (old(lastSourceEpoch) == None || old(lastSourceEpoch) == Some(epoch))
    {
      if lastSourceEpoch != Some(epoch) {
        if lastSourceEpoch.Some? {
          productSession := epochs.Fresh();
        }
        captureEpoch := epochs.Fresh();
        pendingDiscontinuity := true;
        lastSourceEpoch := Some(epoch);
      }
    }

    /** The driver lost samples it cannot count: only the capture epoch goes. */
    method Gap()
      requires Valid() && running
      modifies this`captureEpoch, this`pendingDiscontinuity, this`lastSourceEpoch, this`sampleCounter, this`events,
          epochs
      ensures Valid() && captureEpoch > old(captureEpoch) && events == old(events) + [GapReported]
    {
      NewEpoch();
      EventAdds(log, events, productSession, GapReported, productSession);
      events := events + [GapReported];
    }

    /** End of stream, or a failed read. */
    method Stop(error: Option<string>)
      requires Valid() && running
      modifies this`running, this`status
      ensures Valid() && !running && status == Status(false, old(setting), error)
    {
      status := Status(false, setting, error);
      running := false;
    }

    /** Leaving the loop keeps whatever the status said, but disconnected. */
    method Retire()
      requires Valid()
      modifies this`running, this`status
      ensures Valid() && !running && status == old(status).(connected := false)
    {
      running := false;
      status := status.(connected := false);
    }
  }

  /** Only the epoch and the mark of a discontinuity are ingestion's own. */
  predicate Renamed(published: CaptureClock, supplied: CaptureClock)
  {
    published == supplied.(epoch := published.epoch, discontinuous := published.discontinuous)
  }

  ghost predicate Unpublished(log: seq<Published>, epoch: nat)
  {
    forall i :: 0 <= i < |log| ==> EpochOf(log[i].block) < epoch
  }

  /** The read belongs to another source epoch than the read before it. */
  predicate SourceRestarted(last: Option<nat>, supplied: Option<CaptureClock>)
  {
    last.Some? && supplied.Some? && last != Some(supplied.value.epoch)
  }
}
