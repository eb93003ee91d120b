/**
 What the sample accounting measures, said apart from its steps: bursts are runs of loud
 windows, the duty cycle is a share of the subblocks, a block is a fixed number of samples,
 its counts are those of the samples that fall into active subblocks, and rates approach them.
 */
module Measurements {
  import opened Wrappers
  import opened Arith
  import opened Percentile
  import opened Accounting
  import Gain

  // ---------------------------------------------------------------------
  // Bursts are runs of two to five loud windows
  // ---------------------------------------------------------------------

  /** The loud samples of each window of a buffer of whole windows. */
  function WindowCounts(xs: seq<nat>, size: nat): seq<nat>
    requires size >= 1
    decreases |xs|
  {
    if |xs| < size then [] else WindowCounts(xs[..|xs| - size], size) + [CountLoud(xs[|xs| - size..])]
  }

  /** A sample is loud above the level 46395. */
  function LoudPlaces(xs: seq<nat>): set<nat> { set i: nat | i < |xs| && xs[i] > 46395 }

  lemma {:induction false} LoudSamples(xs: seq<nat>)
    ensures CountLoud(xs) == |LoudPlaces(xs)|
  {
    if xs == [] {
      assert LoudPlaces(xs) == {};
    } else {
      var n := |xs| - 1;
      LoudSamples(xs[..n]);
      assert LoudPlaces(xs) == LoudPlaces(xs[..n]) + if xs[n] > 46395 then {n} else {};
    }
  }

  /** More than a quarter of window `k` is loud. */
  predicate LoudWindow(counts: seq<nat>, k: nat, size: nat)
    requires k < |counts|
  {
    4 * counts[k] > size
  }

  /** Exactly `n` loud windows in a row come before window `k`. */
  ghost predicate RunBefore(counts: seq<nat>, k: nat, n: nat, size: nat)
    requires k <= |counts|
  {
    && n <= k && (forall i: nat :: k - n <= i < k ==> LoudWindow(counts, i, size))
    && (n < k ==> !LoudWindow(counts, k - n - 1, size))
  }

  /** Window `k` ends a burst: it is not loud itself and comes after two to five that are. */
  ghost predicate EndsBurst(counts: seq<nat>, k: nat, size: nat)
    requires k < |counts|
  {
    !LoudWindow(counts, k, size) && exists n: nat :: 2 <= n <= 5 && RunBefore(counts, k, n, size)
  }

  ghost function Bursts(counts: seq<nat>, size: nat): set<nat>
  {
    set k: nat | k < |counts| && EndsBurst(counts, k, size)
  }

  lemma NotLonger(counts: seq<nat>, k: nat, m: nat, n: nat, size: nat)
    requires m < n <= k <= |counts| && RunBefore(counts, k, m, size)
    ensures !RunBefore(counts, k, n, size)
  {
    assert !LoudWindow(counts, k - m - 1, size);
  }

  lemma RunUnique(counts: seq<nat>, k: nat, m: nat, n: nat, size: nat)
    requires k <= |counts| && RunBefore(counts, k, m, size) && RunBefore(counts, k, n, size)
    ensures m == n
  {
    if m < n {
      NotLonger(counts, k, m, n, size);
    } else if n < m {
      NotLonger(counts, k, n, m, size);
    }
  }

  /** What came before stays as it was when more windows follow. */
  lemma RunStays(counts: seq<nat>, more: nat, k: nat, n: nat, size: nat)
    requires k <= |counts|
    ensures RunBefore(counts, k, n, size) <==> RunBefore(counts + [more], k, n, size)
  {
    assert forall i: nat :: i < k ==> (LoudWindow(counts, i, size) <==> LoudWindow(counts + [more], i, size));
  }

  lemma BurstsGrow(counts: seq<nat>, more: nat, size: nat)
    ensures var n, all := |counts|, counts + [more];
      |Bursts(all, size)| == |Bursts(counts, size)| + if EndsBurst(all, n, size) then 1 else 0
  {
    var n, all := |counts|, counts + [more];
    forall k: nat | k < n ensures EndsBurst(counts, k, size) <==> EndsBurst(all, k, size) {
      forall m: nat ensures RunBefore(counts, k, m, size) <==> RunBefore(all, k, m, size) {
        RunStays(counts, more, k, m, size);
      }
      assert LoudWindow(counts, k, size) <==> LoudWindow(all, k, size);
    }
    assert Bursts(all, size) == Bursts(counts, size) + if EndsBurst(all, n, size) then {n} else {};
  }

  /** After whole windows the run is that of the loud windows at the end, and every burst has been counted once. */
  lemma {:induction false} BurstsAreCounted(xs: seq<nat>, windows: nat, size: nat)
    requires size >= 1 && |xs| == size * windows
    ensures |WindowCounts(xs, size)| == windows && Counted(xs, size)
  {
    if windows == 0 {
      assert Bursts([], size) == {};
    } else {
      NextWindow(windows - 1, windows, size);
      BurstsAreCounted(xs[..|xs| - size], windows - 1, size);
      CountedFurther(xs, size);
    }
  }

  /** The automaton, fed from a fresh window, counted exactly the bursts. */
  ghost predicate Counted(xs: seq<nat>, size: nat)
    requires size >= 1
  {
    var counts, end := WindowCounts(xs, size), TickAll(Window(size, 0, 0, 0), xs, size);
    && end == Window(size, 0, end.run, |Bursts(counts, size)|)
    && RunBefore(counts, |counts|, end.run, size)
  }

  lemma CountedFurther(xs: seq<nat>, size: nat)
    requires 1 <= size <= |xs| && Counted(xs[..|xs| - size], size)
    ensures Counted(xs, size)
  {
    var init, last := xs[..|xs| - size], xs[|xs| - size..];
    var before := TickAll(Window(size, 0, 0, 0), init, size);
    TickAllJoins(Window(size, 0, 0, 0), init, last, size);
    assert xs == init + last;
    RestOfWindow(before, last, size);
    OneMoreWindow(WindowCounts(init, size), CountLoud(last), before.run, size);
  }

  lemma OneMoreWindow(counts: seq<nat>, more: nat, run: nat, size: nat)
    requires RunBefore(counts, |counts|, run, size)
    ensures var all, end := counts + [more], Window(size, 0, run, |Bursts(counts, size)|).Ended(more, size);
      RunBefore(all, |all|, end.run, size) && end.bursts == |Bursts(all, size)|
  {
    var all := counts + [more];
    var n := |counts|;
    BurstsGrow(counts, more, size);
    RunStays(counts, more, n, run, size);
    assert LoudWindow(all, n, size) <==> more > size / 4;
    if EndsBurst(all, n, size) {
      var m: nat :| 2 <= m <= 5 && RunBefore(all, n, m, size);
      RunUnique(all, n, m, run, size);
    }
  }

  // ---------------------------------------------------------------------
  // The duty cycle and the length of a block
  // ---------------------------------------------------------------------

  /** After `k` more subblocks have ended. */
  ghost function Later(c: Config, s: State, k: nat): (later: State)
    requires c.Sound() && s.Sound()
    ensures later.Sound()
  {
    if k == 0 then s else Later(c, s, k - 1).SubblockEnded(c)
  }

  /** How many of them were followed by an active one. */
  ghost function Active(c: Config, s: State, k: nat): nat
    requires c.Sound() && s.Sound()
  {
    if k == 0 then 0 else Active(c, s, k - 1) + if Later(c, s, k).active then 1 else 0
  }

  /** Of every `dutyD` subblocks `dutyN` are active, as evenly as whole subblocks allow. */
  lemma {:induction false} DutyShare(c: Config, s: State, k: nat, due: nat)
    requires c.Sound() && s.Sound() && s.duty < c.dutyD && due == s.duty + k * c.dutyN
    ensures Active(c, s, k) == due / c.dutyD && Later(c, s, k).duty == due % c.dutyD
  {
    if k == 0 {
      DivModUnique(due, c.dutyD, 0, due);
    } else {
      var before := due - c.dutyN;
      OneFewer(k, c.dutyN);
      DutyShare(c, s, k - 1, before);
      OneMoreDue(c, Later(c, s, k - 1));
      Carry(before, c.dutyN, c.dutyD);
    }
  }

  lemma OneFewer(k: nat, n: nat)
    requires k >= 1
    ensures k * n == (k - 1) * n + n && (k - 1) * n >= 0
  {
    MulGap(n, k - 1, k);
  }

  lemma OneMoreDue(c: Config, s: State)
    requires c.Sound() && s.Sound() && s.duty < c.dutyD
    ensures var next, sum := s.SubblockEnded(c), s.duty + c.dutyN;
      next.active == (sum >= c.dutyD) && next.duty == if sum >= c.dutyD then sum - c.dutyD else sum
  {
  }

  lemma Carry(total: nat, more: nat, d: nat)
    requires more <= d && d >= 1
    ensures var q, r := total / d, total % d + more;
      (total + more) / d == (if r >= d then q + 1 else q) && (total + more) % d == if r >= d then r - d else r
  {
    var q, r := total / d, total % d + more;
    assert d * (q + 1) == d * q + d;
    DivModUnique(total + more, d, if r >= d then q + 1 else q, if r >= d then r - d else r);
  }

  /** The samples to the end of the block. */
  function ToGo(c: Config, s: State): int { (s.subblocksLeft - 1) * c.subblockSize + s.samplesLeft }

  /** A control step is taken with every `subblocks * subblockSize`-th sample, and with no other. */
  lemma BlockCadence(c: Config, s: State, item: Item)
    requires c.Sound() && s.Sound() && Admissible([item])
    ensures var next := s.Fed(c, item);
      if ToGo(c, s) > 1 then ToGo(c, next) == ToGo(c, s) - 1 && next.control == s.control && next.told == s.told
      else ToGo(c, s) == 1 && ToGo(c, next) == c.subblocks * c.subblockSize && Restarted(c, s, next)
  {
    OneFewer(c.subblocks, c.subblockSize);
    if s.subblocksLeft > 1 {
      OneFewer(s.subblocksLeft - 1, c.subblockSize);
    }
    FedInBlock(c, s, item, s.Fed(c, item));
  }

  /** The gain was controlled by some measurement, and a new block has begun. */
  ghost predicate Restarted(c: Config, s: State, next: State)
    requires c.Sound()
  {
    && next.subblocksLeft == c.subblocks && next.samplesLeft == c.subblockSize
    && (c.Ranges() ==> next.histogram == Empty() && next.counted == 0)
    && exists m: Gain.Measured :: next.control == s.control.Stepped(c.dial, m).(suggested := None)
  }

  lemma FedInBlock(c: Config, s: State, item: Item, next: State)
    requires c.Sound() && s.Sound() && Admissible([item]) && next == s.Fed(c, item)
    ensures s.samplesLeft > 1 ==> next.subblocksLeft == s.subblocksLeft && next.samplesLeft == s.samplesLeft - 1
    ensures s.samplesLeft == 1 && s.subblocksLeft > 1 ==>
      next.subblocksLeft == s.subblocksLeft - 1 && next.samplesLeft == c.subblockSize
    ensures s.samplesLeft > 1 || s.subblocksLeft > 1 ==> next.control == s.control && next.told == s.told
    ensures s.samplesLeft == s.subblocksLeft == 1 ==> Restarted(c, s, next)
  {
  }

  // ---------------------------------------------------------------------
  // What is counted, and how it is smoothed
  // ---------------------------------------------------------------------

  function HeardAt(items: seq<Item>, v: nat): set<nat> { set i: nat | i < |items| && items[i] == Heard(v) }

  function AllHeard(items: seq<Item>): set<nat> { set i: nat | i < |items| && items[i].Heard? }

  function LoudMessages(items: seq<Item>, threshold: real): set<nat>
  {
    set i: nat | i < |items| && items[i].Message? && items[i].signal >= threshold
  }

  /** Samples as the burst windows see them: those of a message are silent. */
  function Undecoded(items: seq<Item>): seq<nat>
  {
    seq(|items|, i requires 0 <= i < |items| => match items[i] case Heard(x) => x case _ => 0)
  }

  lemma OneLevelMore(items: seq<Item>, last: Item, v: nat)
    ensures |HeardAt(items + [last], v)| == |HeardAt(items, v)| + if last == Heard(v) then 1 else 0
  {
    var n, all := |items|, items + [last];
    assert all[n] == last && forall i :: 0 <= i < n ==> all[i] == items[i];
    assert HeardAt(all, v) == HeardAt(items, v) + if last == Heard(v) then {n} else {};
  }

  lemma OneHeardMore(items: seq<Item>, last: Item)
    ensures |AllHeard(items + [last])| == |AllHeard(items)| + if last.Heard? then 1 else 0
  {
    var n, all := |items|, items + [last];
    assert all[n] == last && forall i :: 0 <= i < n ==> all[i] == items[i];
    assert AllHeard(all) == AllHeard(items) + if last.Heard? then {n} else {};
  }

  lemma OneMessageMore(items: seq<Item>, last: Item, threshold: real)
    ensures |LoudMessages(items + [last], threshold)|
         == |LoudMessages(items, threshold)| + if last.Message? && last.signal >= threshold then 1 else 0
  {
    var n, all := |items|, items + [last];
    assert all[n] == last && forall i :: 0 <= i < n ==> all[i] == items[i];
    assert LoudMessages(all, threshold)
        == LoudMessages(items, threshold) + if last.Message? && last.signal >= threshold then {n} else {};
  }

  /** Within a subblock that is not active nothing is measured; within an active one everything is, once. */
  ghost predicate Gathered(c: Config, s: State, items: seq<Item>, next: State)
  {
    && next == s.(samplesLeft := next.samplesLeft, window := next.window, histogram := next.histogram,
                  counted := next.counted, loudDecoded := next.loudDecoded)
    && next.samplesLeft == s.samplesLeft - |items|
    && if !s.active then next == s.(samplesLeft := next.samplesLeft) else
        && next.loudDecoded == s.loudDecoded + |LoudMessages(items, s.control.loudThreshold)|
        && (if c.Ranges() then next.counted == s.counted + |AllHeard(items)| && Levelled(s, items, next)
            else next.counted == s.counted && next.histogram == s.histogram)
        && (c.Bursts() ==> c.Sound() && s.Sound())
        && (c.Bursts() ==> next.window == TickAll(s.window, Undecoded(items), c.windowSize))
        && (!c.Bursts() ==> next.window == s.window)
  }

  ghost predicate Levelled(s: State, items: seq<Item>, next: State)
  {
    forall v: nat :: v < LEVELS ==> next.histogram[v] == s.histogram[v] + |HeardAt(items, v)|
  }

  lemma {:induction false} SubblockGathers(c: Config, s: State, items: seq<Item>)
    requires c.Sound() && s.Sound() && Admissible(items) && |items| < s.samplesLeft
    ensures Gathered(c, s, items, FedAll(c, s, items))
  {
    if items == [] {
      assert forall v: nat :: HeardAt([], v) == {};
      assert AllHeard([]) == {} && LoudMessages([], s.control.loudThreshold) == {};
    } else {
      var init, last := items[..|items| - 1], items[|items| - 1];
      assert items == init + [last];
      SubblockGathers(c, s, init);
      OneGathered(c, s, init, last, FedAll(c, s, init));
    }
  }

  lemma OneGathered(c: Config, s: State, init: seq<Item>, last: Item, before: State)
    requires c.Sound() && s.Sound() && Admissible(init) && Admissible([last]) && |init| + 1 < s.samplesLeft
    requires Gathered(c, s, init, before) && before.Sound()
    ensures Gathered(c, s, init + [last], before.Fed(c, last))
  {
    var items, next := init + [last], before.Fed(c, last);
    assert [last][0] == last;
    OneHeardMore(init, last);
    OneMessageMore(init, last, s.control.loudThreshold);
    assert Undecoded(items)[..|init|] == Undecoded(init);
    if s.active && c.Ranges() {
      forall v: nat | v < LEVELS ensures next.histogram[v] == s.histogram[v] + |HeardAt(items, v)| {
        OneLevelMore(init, last, v);
        assert before.histogram[v] == s.histogram[v] + |HeardAt(init, v)|;
      }
    }
  }

  /** What remains of a distance when each of `n` blocks leaves all but `alpha` of it. */
  function Remains(distance: real, alpha: real, n: nat): real
  {
    if n == 0 then distance else (1.0 - alpha) * Remains(distance, alpha, n - 1)
  }

  /** `n` blocks smoothed towards the same value. */
  function SmoothedOften(old': real, value: real, alpha: real, n: nat): real
  {
    if n == 0 then old' else Smoothed(SmoothedOften(old', value, alpha, n - 1), value, alpha)
  }

  /** A steady value is approached geometrically. */
  lemma {:induction false} SmoothingConverges(old': real, value: real, alpha: real, n: nat)
    ensures SmoothedOften(old', value, alpha, n) - value == Remains(old' - value, alpha, n)
  {
    if n > 0 {
      SmoothingConverges(old', value, alpha, n - 1);
      OneSmoothing(SmoothedOften(old', value, alpha, n - 1), value, alpha, Remains(old' - value, alpha, n - 1));
    }
  }

  lemma OneSmoothing(old': real, value: real, alpha: real, distance: real)
    requires old' - value == distance
    ensures Smoothed(old', value, alpha) - value == (1.0 - alpha) * distance
  {
  }

  /**
   At the end of a block the rates move towards what was counted, scaled up by what the duty
   cycle left out; totals take the counts over, and counting starts again.
   */
  lemma BlockRates(c: Config, s: State, bursts: real, decoded: real)
    requires c.Sound() && c.Bursts()
    requires bursts * c.dutyN as real == s.window.bursts as real * c.dutyD as real
    requires decoded * c.dutyN as real == s.loudDecoded as real * c.dutyD as real
    ensures var next := s.BurstsEnded(c);
      && next.burstRate == Smoothed(s.burstRate, bursts, c.burstAlpha)
      && next.decodedRate == Smoothed(s.decodedRate, decoded, c.burstAlpha)
      && next.bursts + next.window.bursts == s.bursts + s.window.bursts && next.window.bursts == 0
      && next.decoded + next.loudDecoded == s.decoded + s.loudDecoded && next.loudDecoded == 0
  {
    var n, d := c.dutyN as real, c.dutyD as real;
    Quotient(d, n);
    var scale := d / n;
    ScaleIs(scale, n, d, s.window.bursts as real, bursts);
    ScaleIs(scale, n, d, s.loudDecoded as real, decoded);
    ScaledRates(c, s, scale, bursts, decoded);
  }

  lemma ScaledRates(c: Config, s: State, scale: real, bursts: real, decoded: real)
    requires c.Sound() && c.Bursts() && scale == c.dutyD as real / c.dutyN as real
    requires scale * s.window.bursts as real == bursts && scale * s.loudDecoded as real == decoded
    ensures var next := s.BurstsEnded(c);
      && next.burstRate == Smoothed(s.burstRate, bursts, c.burstAlpha)
      && next.decodedRate == Smoothed(s.decodedRate, decoded, c.burstAlpha)
  {
    SameSmoothed(s.burstRate, scale * s.window.bursts as real, bursts, c.burstAlpha);
    SameSmoothed(s.decodedRate, scale * s.loudDecoded as real, decoded, c.burstAlpha);
  }

  lemma SameSmoothed(old': real, x: real, y: real, alpha: real)
    requires x == y
    ensures Smoothed(old', x, alpha) == Smoothed(old', y, alpha)
  {
  }

  lemma ScaleIs(scale: real, n: real, d: real, count: real, rate: real)
    requires n > 0.0 && n * scale == d && rate * n == count * d
    ensures scale * count == rate
  {
    Regroup(scale, count, n);
    SameFactor(scale * count, rate, n, count * d);
  }

  lemma Regroup(scale: real, count: real, n: real)
    ensures scale * count * n == count * (n * scale)
  {
  }

  lemma SameFactor(a: real, b: real, n: real, total: real)
    requires n > 0.0 && a * n == total == b * n
    ensures a == b
  {
    ScaledCompare(a, b, n, total);
  }
}
