/**
 Sample accounting of the adaptive controller: windows of loud samples, duty
 cycle, and blocks, whatever the sizes of the buffers that carry the samples.
 */
module Accounting {
  import opened Wrappers
  import opened Arith
  import opened Percentile
  import Gain

  const LOUD: nat := 46395

  // ---------------------------------------------------------------------
  // Reference: one sample at a time
  // ---------------------------------------------------------------------

  /** The window being filled, the run of loud windows, and the bursts counted in this block. */
  datatype Window = Window(left: nat, count: nat, run: nat, bursts: nat)
  {
    /** A window ended with `counter` loud samples. */
    function Ended(counter: nat, size: nat): Window
    {
      if counter > size / 4 then this.(run := run + 1)
      else this.(run := 0, bursts := if 2 <= run <= 5 then bursts + 1 else bursts)
    }

    function Tick(x: nat, size: nat): Window
      requires left >= 1
    {
      var now := if x > LOUD then count + 1 else count;
      if left == 1 then Ended(now, size).(left := size, count := 0)
      else this.(left := left - 1, count := now)
    }
  }

  function TickAll(w: Window, xs: seq<nat>, size: nat): (r: Window)
    requires w.left >= 1 && size >= 1
    ensures r.left >= 1
  {
    if xs == [] then w else TickAll(w, xs[..|xs| - 1], size).Tick(xs[|xs| - 1], size)
  }

  function CountLoud(xs: seq<nat>): nat
  {
    if xs == [] then 0 else CountLoud(xs[..|xs| - 1]) + if xs[|xs| - 1] > LOUD then 1 else 0
  }

  lemma {:induction false} TickAllJoins(w: Window, xs: seq<nat>, ys: seq<nat>, size: nat)
    requires w.left >= 1 && size >= 1
    ensures TickAll(w, xs + ys, size) == TickAll(TickAll(w, xs, size), ys, size)
  {
    if ys == [] {
      assert xs + ys == xs;
    } else {
      TickAllJoins(w, xs, ys[..|ys| - 1], size);
      assert (xs + ys)[..|xs + ys| - 1] == xs + ys[..|ys| - 1];
    }
  }

  /** Fewer samples than the window still needs only count. */
  lemma {:induction false} PartOfWindow(w: Window, xs: seq<nat>, size: nat)
    requires w.left > |xs| && size >= 1
    ensures TickAll(w, xs, size) == w.(left := w.left - |xs|, count := w.count + CountLoud(xs))
  {
    if xs != [] {
      PartOfWindow(w, xs[..|xs| - 1], size);
    }
  }

  /** Exactly the samples the window still needs end it. */
  lemma RestOfWindow(w: Window, xs: seq<nat>, size: nat)
    requires w.left == |xs| >= 1 && size >= 1
    ensures TickAll(w, xs, size) == w.Ended(w.count + CountLoud(xs), size).(left := size, count := 0)
  {
    PartOfWindow(w, xs[..|xs| - 1], size);
  }

  function Quiet(n: nat): seq<nat> { seq(n, i => 0) }

  lemma {:induction false} QuietCount(xs: seq<nat>)
    requires forall i :: 0 <= i < |xs| ==> xs[i] <= LOUD
    ensures CountLoud(xs) == 0
  {
    if xs != [] {
      QuietCount(xs[..|xs| - 1]);
    }
  }

  // ---------------------------------------------------------------------
  // Windows, a buffer at a time
  // ---------------------------------------------------------------------

  method CountLoudSamples(buf: seq<nat>) returns (count: nat)
    ensures count == CountLoud(buf)
  {
    count := 0;
    for i := 0 to |buf|
      invariant count == CountLoud(buf[..i])
    {
      assert buf[..i + 1][..i] == buf[..i];
      if buf[i] > LOUD {
        count := count + 1;
      }
    }
    assert buf[..|buf|] == buf;
  }

  class BurstWindows {
    const size: nat
    var left: nat
    var count: nat
    var run: nat
    var bursts: nat

    ghost predicate Valid()
      reads this
    {
      size >= 1 && 1 <= left
    }

    ghost function Now(): Window
      reads this
    {
      Window(left, count, run, bursts)
    }

    constructor (size: nat)
      requires size >= 1
      ensures Valid() && this.size == size && Now() == Window(size, 0, 0, 0)
    {
      this.size := size;
      left, count, run, bursts := size, 0, 0, 0;
    }

    method EndOfWindow(counter: nat)
      modifies this`run, this`bursts
      ensures Now() == old(Now()).Ended(counter, size)
    {
      if counter > size / 4 {
        run := run + 1;
      } else {
        if 2 <= run <= 5 {
          bursts := bursts + 1;
        }
        run := 0;
      }
    }

    /** Whole windows, from a fresh one. */
    method ScanWindows(buf: seq<nat>, windows: nat)
      requires Valid() && |buf| == size * windows
      modifies this`run, this`bursts
      ensures Window(size, 0, run, bursts) == TickAll(Window(size, 0, old(run), old(bursts)), buf, size)
    {
      ghost var start := Window(size, 0, run, bursts);
      var from := 0;
      for i := 0 to windows
        invariant from == size * i && from <= |buf|
        invariant Window(size, 0, run, bursts) == TickAll(start, buf[..from], size)
      {
        NextWindow(i, windows, size);
        OneWindow(buf[from..from + size]);
        TickAllJoins(start, buf[..from], buf[from..from + size], size);
        assert buf[..from] + buf[from..from + size] == buf[..from + size];
        from := from + size;
      }
      assert buf[..from] == buf;
    }

    method OneWindow(one: seq<nat>)
      requires Valid() && |one| == size
      modifies this`run, this`bursts
      ensures Window(size, 0, run, bursts) == TickAll(Window(size, 0, old(run), old(bursts)), one, size)
    {
      var counter := CountLoudSamples(one);
      RestOfWindow(Window(size, 0, run, bursts), one, size);
      EndOfWindow(counter);
    }

    /** Account for a buffer of any length. */
    method Update(buf: seq<nat>)
      requires Valid()
      modifies this
      ensures Valid() && Now() == TickAll(old(Now()), buf, size)
    {
      if |buf| < left {
        PartOfWindow(Now(), buf, size);
        var counter := CountLoudSamples(buf);
        count, left := count + counter, left - |buf|;
        return;
      }
      ghost var w := Now();
      var first, rest := buf[..left], buf[left..];
      assert buf == first + rest;
      TickAllJoins(w, first, rest, size);
      RestOfWindow(w, first, size);
      var counter := CountLoudSamples(first);
      EndOfWindow(count + counter);
      UpdateFresh(rest);
    }

    /** What follows the end of a window. */
    method UpdateFresh(buf: seq<nat>)
      requires Valid()
      modifies this
      ensures Valid() && Now() == TickAll(Window(size, 0, old(run), old(bursts)), buf, size)
    {
      var windows, samples := WholeWindows(|buf|);
      ghost var w := Window(size, 0, run, bursts);
      var whole, part := buf[..samples], buf[samples..];
      assert buf == whole + part;
      TickAllJoins(w, whole, part, size);
      ScanWindows(whole, windows);
      PartOfWindow(Window(size, 0, run, bursts), part, size);
      var counter := CountLoudSamples(part);
      count, left := counter, size - |part|;
    }

    method WholeWindows(n: nat) returns (windows: nat, samples: nat)
      requires size >= 1
      ensures samples == size * windows && samples <= n < samples + size
    {
      windows := n / size;
      samples := size * windows;
    }

    /** Skip decoded samples: the same as that many quiet ones, whatever their levels. */
    method Skip(length: nat)
      requires Valid()
      modifies this
      ensures Valid()
      ensures forall xs: seq<nat> | |xs| == length && (forall i :: 0 <= i < |xs| ==> xs[i] <= LOUD) ::
        Now() == TickAll(old(Now()), xs, size)
    {
      SkipQuiet(length);
      forall xs: seq<nat> | |xs| == length && (forall i :: 0 <= i < |xs| ==> xs[i] <= LOUD)
        ensures Now() == TickAll(old(Now()), xs, size)
      {
        QuietIsQuiet(old(Now()), xs, size);
      }
    }

    method SkipQuiet(length: nat)
      requires Valid()
      modifies this
      ensures Valid() && Now() == TickAll(old(Now()), Quiet(length), size)
    {
      if length < left {
        PartOfWindow(Now(), Quiet(length), size);
        QuietCount(Quiet(length));
        left := left - length;
        return;
      }
      ghost var w := Now();
      var rest := length - left;
      assert Quiet(length) == Quiet(left) + Quiet(rest);
      TickAllJoins(w, Quiet(left), Quiet(rest), size);
      RestOfWindow(w, Quiet(left), size);
      QuietCount(Quiet(left));
      EndOfWindow(count);
      SkipFresh(rest);
    }

    method SkipFresh(length: nat)
      requires Valid()
      modifies this
      ensures Valid() && Now() == TickAll(Window(size, 0, old(run), old(bursts)), Quiet(length), size)
    {
      var windows, samples := WholeWindows(length);
      ghost var start := Window(size, 0, run, bursts);
      var part := length - samples;
      EmptyWindows(windows, samples);
      QuietSplits(samples, part);
      TickAllJoins(start, Quiet(samples), Quiet(part), size);
      PartOfWindow(Window(size, 0, run, bursts), Quiet(part), size);
      QuietCount(Quiet(part));
      count, left := 0, size - part;
    }

    method EmptyWindows(windows: nat, ghost samples: nat)
      requires Valid() && samples == size * windows
      modifies this`run, this`bursts
      ensures Window(size, 0, run, bursts) == TickAll(Window(size, 0, old(run), old(bursts)), Quiet(samples), size)
    {
      ghost var start, done := Window(size, 0, run, bursts), 0;
      for i := 0 to windows
        invariant done == size * i
        invariant Window(size, 0, run, bursts) == TickAll(start, Quiet(done), size)
      {
        NextWindow(i, windows, size);
        QuietSplits(done, size);
        TickAllJoins(start, Quiet(done), Quiet(size), size);
        EmptyWindow();
        done := done + size;
      }
    }

    method EmptyWindow()
      requires Valid()
      modifies this`run, this`bursts
      ensures Window(size, 0, run, bursts) == TickAll(Window(size, 0, old(run), old(bursts)), Quiet(size), size)
    {
      RestOfWindow(Window(size, 0, run, bursts), Quiet(size), size);
      QuietCount(Quiet(size));
      EndOfWindow(0);
    }
  }

  lemma QuietSplits(m: nat, n: nat)
    ensures Quiet(m + n) == Quiet(m) + Quiet(n)
  {
  }

  lemma NextWindow(i: nat, windows: nat, size: nat)
    requires i < windows
    ensures size * (i + 1) == size * i + size <= size * windows
  {
    MulGap(size, i, windows);
  }

  /** Any quiet samples are as good as any other. */
  lemma {:induction false} QuietIsQuiet(w: Window, xs: seq<nat>, size: nat)
    requires w.left >= 1 && size >= 1 && forall i :: 0 <= i < |xs| ==> xs[i] <= LOUD
    ensures TickAll(w, xs, size) == TickAll(w, Quiet(|xs|), size)
  {
    if xs != [] {
      QuietIsQuiet(w, xs[..|xs| - 1], size);
      assert Quiet(|xs|)[..|xs| - 1] == Quiet(|xs| - 1);
    }
  }

  // ---------------------------------------------------------------------
  // Subblocks, duty cycle and blocks
  // ---------------------------------------------------------------------

  datatype Config = Config(
    windowSize: nat,
    subblockSize: nat,
    subblocks: nat,
    dutyN: nat,
    dutyD: nat,
    burstAlpha: real,
    rangeAlpha: real,
    percentile: nat,
    decibels: real -> real,
    dial: Gain.Dial)
  {
    predicate Sound() { windowSize >= 1 && subblockSize >= 1 && subblocks >= 1 && 1 <= dutyN <= dutyD && dial.Sound() }

    function Bursts(): bool { dial.config.burstEnabled }

    function Ranges(): bool { dial.config.rangeEnabled }
  }

  /**
   One sample: heard; or skipped as part of a decoded message, the first of it in its
   subblock carrying the signal.
   */
  datatype Item = Heard(level: nat) | Message(signal: real) | Rest

  predicate Admissible(items: seq<Item>)
  {
    forall i :: 0 <= i < |items| && items[i].Heard? ==> Sample16(items[i].level)
  }

  function Smoothed(old': real, new': real, alpha: real): real
  {
    old' * (1.0 - alpha) + new' * alpha
  }

  datatype State = State(
    subblocksLeft: nat,
    samplesLeft: nat,
    duty: nat,
    active: bool,
    window: Window,
    histogram: Histogram,
    counted: nat,
    level: real,
    bursts: nat,
    burstRate: real,
    loudDecoded: nat,
    decoded: nat,
    decodedRate: real,
    control: Gain.Control,
    told: seq<int>)
  {
    predicate Sound() { samplesLeft >= 1 && subblocksLeft >= 1 && window.left >= 1 }

    /** One sample of an active subblock. */
    function Counted(c: Config, item: Item): State
      requires c.Sound() && Sound() && Admissible([item])
    {
      assert [item][0] == item;
      match item
      case Heard(x) =>
        this.(
          window := if c.Bursts() then window.Tick(x, c.windowSize) else window,
          histogram := if c.Ranges() then Added(histogram, x) else histogram,
          counted := if c.Ranges() then counted + 1 else counted)
      case _ =>
        this.(
          window := if c.Bursts() then window.Tick(0, c.windowSize) else window,
          loudDecoded := if item.Message? && item.signal >= control.loudThreshold then loudDecoded + 1 else loudDecoded)
    }

    ghost function RangeEnded(c: Config): State
    {
      if c.Ranges()
      then this.(level := Smoothed(level, Level(histogram, IndexOf(counted, c.percentile)) as real, c.rangeAlpha),
                 histogram := Empty(), counted := 0)
      else this
    }

    function BurstsEnded(c: Config): State
      requires c.Sound()
    {
      var scale := c.dutyD as real / c.dutyN as real;
      if c.Bursts()
      then this.(bursts := bursts + window.bursts,
                 burstRate := Smoothed(burstRate, scale * window.bursts as real, c.burstAlpha),
                 window := window.(bursts := 0),
                 decoded := decoded + loudDecoded,
                 decodedRate := Smoothed(decodedRate, scale * loudDecoded as real, c.burstAlpha),
                 loudDecoded := 0)
      else this
    }

    function Measures(c: Config): Gain.Measured
    {
      Gain.Measured(burstRate, decodedRate, if level > 0.0 then c.decibels(level) else 0.0)
    }

    /** The control step, and the suggestion taken from it. */
    function Controlled(c: Config): State
      requires c.Sound()
    {
      var next := control.Stepped(c.dial, Measures(c));
      this.(
        control := next.(suggested := None),
        told := if next.suggested.Some? then told + [next.suggested.value] else told)
    }

    /** The end of a block: what was measured is smoothed, the gain is controlled, and measuring starts again. */
    ghost function BlockEnded(c: Config): State
      requires c.Sound()
    {
      RangeEnded(c).BurstsEnded(c).Controlled(c)
    }

    /** The next subblock: the duty cycle decides whether it counts. */
    function SubblockBegun(c: Config): State
      requires subblocksLeft >= 1
    {
      var due := duty + c.dutyN >= c.dutyD;
      this.(
        samplesLeft := c.subblockSize,
        duty := if due then duty + c.dutyN - c.dutyD else duty + c.dutyN,
        active := due,
        window := if due then window else window.Ended(0, c.windowSize),
        subblocksLeft := subblocksLeft - 1)
    }

    /** The end of a subblock, and of a block with the last of them. */
    ghost function SubblockEnded(c: Config): State
      requires c.Sound() && subblocksLeft >= 1
    {
      var next := SubblockBegun(c);
      if next.subblocksLeft == 0 then next.(subblocksLeft := c.subblocks).BlockEnded(c) else next
    }

    /** One sample. */
    ghost function Fed(c: Config, item: Item): (next: State)
      requires c.Sound() && Sound() && Admissible([item])
      ensures next.Sound() && told <= next.told
    {
      var heard := (if active then Counted(c, item) else this).(samplesLeft := samplesLeft - 1);
      if heard.samplesLeft == 0 then heard.SubblockEnded(c) else heard
    }
  }

  lemma LevelExists(h: Histogram, n: nat, k: nat) returns (level: nat)
    requires k < LEVELS && (k == LEVELS - 1 || n < Below(h, k + 1))
    ensures Stops(h, n, level)
  {
    if Below(h, k) <= n {
      level := k;
      BelowGrows(h, if k == LEVELS - 1 then k else k + 1, LEVELS);
    } else {
      level := LevelExists(h, n, k - 1);
    }
  }

  lemma LevelUnique(h: Histogram, n: nat, a: nat, b: nat)
    requires Stops(h, n, a) && Stops(h, n, b)
    ensures a == b
  {
    if a < b {
      BelowGrows(h, a + 1, b);
    } else if b < a {
      BelowGrows(h, b + 1, a);
    }
  }

  /** The level at which the walk stops. */
  ghost function Level(h: Histogram, n: nat): (level: nat)
    ensures Stops(h, n, level)
  {
    assert exists level :: Stops(h, n, level) by {
      var level := LevelExists(h, n, LEVELS - 1);
    }
    var level :| Stops(h, n, level);
    level
  }

  ghost function FedAll(c: Config, s: State, items: seq<Item>): (next: State)
    requires c.Sound() && s.Sound() && Admissible(items)
    ensures next.Sound() && s.told <= next.told
  {
    if items == [] then s else FedAll(c, s, items[..|items| - 1]).Fed(c, items[|items| - 1])
  }

  /** Feeding in pieces is feeding at once. */
  lemma {:induction false} FedAllJoins(c: Config, s: State, xs: seq<Item>, ys: seq<Item>)
    requires c.Sound() && s.Sound() && Admissible(xs) && Admissible(ys)
    ensures FedAll(c, s, xs + ys) == FedAll(c, FedAll(c, s, xs), ys)
  {
    if ys == [] {
      assert xs + ys == xs;
    } else {
      FedAllJoins(c, s, xs, ys[..|ys| - 1]);
      assert (xs + ys)[..|xs + ys| - 1] == xs + ys[..|ys| - 1];
    }
  }

  // ---------------------------------------------------------------------
  // A buffer as items
  // ---------------------------------------------------------------------

  function Levels(buf: seq<nat>): (items: seq<Item>)
    requires Samples(buf)
    ensures Admissible(items)
  {
    seq(|buf|, i requires 0 <= i < |buf| => Heard(buf[i]))
  }

  /** The part of a buffer that falls into one subblock. */
  function Piece(chunk: seq<nat>, message: Option<real>): (items: seq<Item>)
    requires Samples(chunk)
    ensures Admissible(items) && |items| == |chunk|
  {
    if message == None then Levels(chunk)
    else if chunk == [] then []
    else [Message(message.value)] + seq(|chunk| - 1, i => Rest)
  }

  function LastItem(chunk: seq<nat>, message: Option<real>): Item
    requires chunk != []
  {
    if message == None then Heard(chunk[|chunk| - 1]) else if |chunk| == 1 then Message(message.value) else Rest
  }

  /** A buffer, cut where subblocks end. */
  function Cut(buf: seq<nat>, message: Option<real>, left: nat, size: nat): (items: seq<Item>)
    requires Samples(buf) && left >= 1 && size >= 1
    ensures Admissible(items)
    decreases |buf|
  {
    if |buf| < left then Piece(buf, message) else Piece(buf[..left], message) + Cut(buf[left..], message, size, size)
  }

  /** Without a message the cuts leave no trace. */
  lemma {:induction false} CutUndecoded(buf: seq<nat>, left: nat, size: nat)
    requires Samples(buf) && left >= 1 && size >= 1
    ensures Cut(buf, None, left, size) == Levels(buf)
    decreases |buf|
  {
    if |buf| >= left {
      CutUndecoded(buf[left..], size, size);
      assert buf == buf[..left] + buf[left..];
    }
  }

  /** The state after an undecoded buffer. */
  ghost function Buffered(c: Config, s: State, buf: seq<nat>): (next: State)
    requires c.Sound() && s.Sound() && Samples(buf)
    ensures next.Sound()
  {
    FedAll(c, s, Cut(buf, None, s.samplesLeft, c.subblockSize))
  }

  lemma BufferedIsFed(c: Config, s: State, buf: seq<nat>)
    requires c.Sound() && s.Sound() && Samples(buf)
    ensures Buffered(c, s, buf) == FedAll(c, s, Levels(buf))
  {
    CutUndecoded(buf, s.samplesLeft, c.subblockSize);
  }

  /** However undecoded samples are cut into buffers, everything that follows is the same, suggestions included. */
  lemma CuttingIsInvisible(c: Config, s: State, xs: seq<nat>, ys: seq<nat>)
    requires c.Sound() && s.Sound() && Samples(xs) && Samples(ys)
    ensures Samples(xs + ys) && Buffered(c, s, xs + ys) == Buffered(c, Buffered(c, s, xs), ys)
  {
    LevelsJoin(xs, ys, xs + ys);
    BuffersJoin(c, s, xs, ys, xs + ys, Buffered(c, s, xs));
  }

  lemma LevelsJoin(xs: seq<nat>, ys: seq<nat>, all: seq<nat>)
    requires Samples(xs) && Samples(ys) && all == xs + ys
    ensures Samples(all) && Levels(all) == Levels(xs) + Levels(ys)
  {
  }

  lemma BuffersJoin(c: Config, s: State, xs: seq<nat>, ys: seq<nat>, all: seq<nat>, middle: State)
    requires c.Sound() && s.Sound() && Samples(xs) && Samples(ys) && Samples(all)
    requires Levels(all) == Levels(xs) + Levels(ys)
    requires middle == Buffered(c, s, xs)
    ensures Buffered(c, s, all) == Buffered(c, middle, ys)
  {
    BufferedIsFed(c, s, xs);
    BufferedIsFed(c, middle, ys);
    BufferedIsFed(c, s, all);
    FedOn(c, s, Levels(xs), middle, Levels(ys), Levels(all));
  }

  lemma FedOn(c: Config, s: State, xs: seq<Item>, middle: State, ys: seq<Item>, all: seq<Item>)
    requires c.Sound() && s.Sound() && Admissible(xs) && Admissible(ys) && all == xs + ys && middle == FedAll(c, s, xs)
    ensures Admissible(all) && FedAll(c, s, all) == FedAll(c, middle, ys)
  {
    FedAllJoins(c, s, xs, ys);
  }

  function Messages(items: seq<Item>): nat
  {
    if items == [] then 0 else Messages(items[..|items| - 1]) + if items[|items| - 1].Message? then 1 else 0
  }

  lemma {:induction false} MessagesJoin(xs: seq<Item>, ys: seq<Item>)
    ensures Messages(xs + ys) == Messages(xs) + Messages(ys)
  {
    if ys == [] {
      assert xs + ys == xs;
    } else {
      MessagesJoin(xs, ys[..|ys| - 1]);
      assert (xs + ys)[..|xs + ys| - 1] == xs + ys[..|ys| - 1];
    }
  }

  lemma {:induction false} NoMessages(items: seq<Item>)
    requires forall i :: 0 <= i < |items| ==> !items[i].Message?
    ensures Messages(items) == 0
  {
    if items != [] {
      NoMessages(items[..|items| - 1]);
    }
  }

  lemma OneMessage(chunk: seq<nat>, signal: real)
    requires Samples(chunk)
    ensures Messages(Piece(chunk, Some(signal))) == if chunk == [] then 0 else 1
  {
    if chunk != [] {
      var first, rest := [Message(signal)], seq(|chunk| - 1, i => Rest);
      MessagesJoin(first, rest);
      NoMessages(rest);
      assert Messages(first) == 1 by {
        assert first[..0] == [];
      }
    }
  }

  /** How many subblocks `n` samples reach into, with `left` to go in the first. */
  function Reached(n: nat, left: nat, size: nat): nat
    requires size >= 1
  {
    if n == 0 then 0 else if n <= left then 1 else 1 + CeilDiv(n - left, size)
  }

  lemma ReachedMore(n: nat, left: nat, size: nat)
    requires 1 <= left <= n && size >= 1
    ensures Reached(n, left, size) == 1 + Reached(n - left, size, size)
  {
    OneMoreSubblock(n - left, size);
  }

  /** A decoded message is counted once in every subblock that it reaches into. */
  lemma {:induction false} MessageOncePerSubblock(buf: seq<nat>, signal: real, left: nat, size: nat)
    requires Samples(buf) && left >= 1 && size >= 1
    ensures Messages(Cut(buf, Some(signal), left, size)) == Reached(|buf|, left, size)
    decreases |buf|
  {
    if |buf| < left {
      OneMessage(buf, signal);
    } else {
      var first, rest := buf[..left], buf[left..];
      OneMessage(first, signal);
      MessageOncePerSubblock(rest, signal, size, size);
      MessagesJoin(Piece(first, Some(signal)), Cut(rest, Some(signal), size, size));
      ReachedMore(|buf|, left, size);
    }
  }

  lemma OneMoreSubblock(n: nat, size: nat)
    requires size >= 1
    ensures CeilDiv(n, size) == if n == 0 then 0 else if n <= size then 1 else 1 + CeilDiv(n - size, size)
  {
    if n == 0 {
      CeilDivUnique(0, size, 0);
    } else if n <= size {
      CeilDivUnique(n, size, 1);
    } else {
      DivModShift(n - size + size - 1, size, 1);
    }
  }

  /** What a piece leaves, short of the end of its subblock. */
  ghost function Took(c: Config, s: State, chunk: seq<nat>, message: Option<real>): State
    requires c.Sound() && s.Sound() && Samples(chunk) && |chunk| <= s.samplesLeft
  {
    (if !s.active then s
     else if message == None
     then s.(window := if c.Bursts() then TickAll(s.window, chunk, c.windowSize) else s.window,
             histogram := if c.Ranges() then AddedAll(s.histogram, chunk) else s.histogram,
             counted := if c.Ranges() then s.counted + |chunk| else s.counted)
     else s.(window := if c.Bursts() then TickAll(s.window, Quiet(|chunk|), c.windowSize) else s.window,
             loudDecoded :=
               if chunk != [] && message.value >= s.control.loudThreshold then s.loudDecoded + 1 else s.loudDecoded)
    ).(samplesLeft := s.samplesLeft - |chunk|)
  }

  lemma PieceGrows(chunk: seq<nat>, message: Option<real>, init: seq<nat>, last: Item)
    requires Samples(chunk) && chunk != [] && init == chunk[..|chunk| - 1]
    requires last == LastItem(chunk, message)
    ensures Piece(chunk, message)[..|chunk| - 1] == Piece(init, message) && Piece(chunk, message)[|chunk| - 1] == last
  {
  }

  lemma {:induction false} FedWithin(c: Config, s: State, chunk: seq<nat>, message: Option<real>)
    requires c.Sound() && s.Sound() && Samples(chunk) && |chunk| < s.samplesLeft
    ensures FedAll(c, s, Piece(chunk, message)) == Took(c, s, chunk, message)
  {
    if chunk != [] {
      var init := chunk[..|chunk| - 1];
      var last := LastItem(chunk, message);
      FedWithin(c, s, init, message);
      PieceGrows(chunk, message, init, last);
      OneTaken(c, s, chunk, message, init, last);
    }
  }

  /** One more sample of a piece. */
  lemma OneTaken(c: Config, s: State, chunk: seq<nat>, message: Option<real>, init: seq<nat>, last: Item)
    requires c.Sound() && s.Sound() && Samples(chunk) && 1 <= |chunk| <= s.samplesLeft && init == chunk[..|chunk| - 1]
    requires last == LastItem(chunk, message)
    ensures Took(c, s, init, message).Sound() && Admissible([last])
    ensures Took(c, s, init, message).Fed(c, last)
         == if |chunk| < s.samplesLeft then Took(c, s, chunk, message) else Took(c, s, chunk, message).SubblockEnded(c)
  {
    TookGrows(c, s, chunk, message, init, last);
  }

  lemma TookGrows(c: Config, s: State, chunk: seq<nat>, message: Option<real>, init: seq<nat>, last: Item)
    requires c.Sound() && s.Sound() && Samples(chunk) && 1 <= |chunk| <= s.samplesLeft && init == chunk[..|chunk| - 1]
    requires last == LastItem(chunk, message)
    ensures var t := Took(c, s, init, message);
      t.Sound() && Admissible([last])
      && (if t.active then t.Counted(c, last) else t).(samplesLeft := t.samplesLeft - 1) == Took(c, s, chunk, message)
  {
    if message != None {
      var quiet := Quiet(|chunk|);
      assert quiet[..|quiet| - 1] == Quiet(|init|) && quiet[|quiet| - 1] == 0;
    }
  }

  lemma FedToEnd(c: Config, s: State, chunk: seq<nat>, message: Option<real>)
    requires c.Sound() && s.Sound() && Samples(chunk) && |chunk| == s.samplesLeft
    ensures FedAll(c, s, Piece(chunk, message)) == Took(c, s, chunk, message).SubblockEnded(c)
  {
    var init := chunk[..|chunk| - 1];
    var last := LastItem(chunk, message);
    FedWithin(c, s, init, message);
    PieceGrows(chunk, message, init, last);
    OneTaken(c, s, chunk, message, init, last);
  }

  /** A call hands out the last suggestion made during it. */
  predicate Handed(before: seq<int>, after: seq<int>, step: Option<int>)
  {
    before <= after && step == if |after| > |before| then Some(after[|after| - 1]) else None
  }

  lemma HandedOn(before: seq<int>, middle: seq<int>, after: seq<int>, first: Option<int>, second: Option<int>)
    requires Handed(before, middle, first) && Handed(middle, after, second)
    ensures Handed(before, after, if second.Some? then second else first)
  {
  }

  class SampleAccounting {
    const config: Config
    const windows: BurstWindows
    const controller: Gain.Controller
    var subblocksLeft: nat
    var samplesLeft: nat
    var duty: nat
    var active: bool
    var histogram: Histogram
    var counted: nat
    var level: real
    var bursts: nat
    var burstRate: real
    var loudDecoded: nat
    var decoded: nat
    var decodedRate: real
    /** Every suggestion made so far. */
    ghost var told: seq<int>

    ghost predicate Valid()
      reads this, windows, controller
    {
      && config.Sound() && windows.Valid() && windows.size == config.windowSize && Now().Sound()
      && controller.Valid() && controller.Fixed() == config.dial
    }

    ghost function Now(): State
      reads this, windows, controller
    {
      State(subblocksLeft, samplesLeft, duty, active, windows.Now(), histogram, counted, level, bursts, burstRate,
            loudDecoded, decoded, decodedRate, controller.Now(), told)
    }

    constructor (config: Config, step: int)
      requires config.Sound() && Gain.IsLowest(config.dial.table, config.dial.config.minDb, config.dial.gainMin)
      requires Gain.IsHighest(config.dial.table, config.dial.config.maxDb, config.dial.gainMin, config.dial.gainMax)
      ensures Valid() && fresh(windows) && fresh(controller) && this.config == config
      ensures Now() == State(config.subblocks, config.subblockSize, 0, false, Window(config.windowSize, 0, 0, 0),
          Empty(), 0, 0.0, 0, 0.0,
                             0, 0, 0.0, controller.Now(), [])
    {
      this.config := config;
      windows := new BurstWindows(config.windowSize);
      controller := new Gain.Controller(config.dial.config, config.dial.table, step);
      subblocksLeft, samplesLeft, duty, active := config.subblocks, config.subblockSize, 0, false;
      histogram, counted, level, bursts, burstRate := Empty(), 0, 0.0, 0, 0.0;
      loudDecoded, decoded, decodedRate, told := 0, 0, 0.0, [];
      new;
      Gain.LimitsUnique(config.dial.table, config.dial.config, config.dial.gainMin, config.dial.gainMax,
                        controller.gainMin, controller.gainMax);
    }

    /**
     A buffer, with the message decoded from it if there is one: the state is that
     of feeding its items one at a time, controller included, and the call hands
     out the last suggestion made on the way.
     */
    method Update(buf: seq<nat>, message: Option<real>) returns (step: Option<int>)
      requires Valid() && Samples(buf)
      modifies this, windows, controller
      ensures Valid() && Handed(old(told), told, step)
      ensures Now() == if config.Bursts() || config.Ranges()
                       then FedAll(config, old(Now()), Cut(buf, message, old(samplesLeft), config.subblockSize))
                       else old(Now())
    {
      step := None;
      if !config.Bursts() && !config.Ranges() {
        return;
      }
      var rest := buf;
      ghost var end := FedAll(config, Now(), Cut(buf, message, samplesLeft, config.subblockSize));
      while |rest| >= samplesLeft
        invariant Valid() && Samples(rest) && Handed(old(told), told, step)
        invariant FedAll(config, Now(), Cut(rest, message, samplesLeft, config.subblockSize)) == end
        decreases |rest|
      {
        var chunk := rest[..samplesLeft];
        rest := rest[samplesLeft..];
        ghost var was := told;
        FedAllJoins(config, Now(), Piece(chunk, message), Cut(rest, message, config.subblockSize, config.subblockSize));
        var more := Finish(chunk, message);
        HandedOn(old(told), was, told, step, more);
        if more.Some? {
          step := more;
        }
      }
      Part(rest, message);
    }

    /** Exactly the samples the subblock still needs. */
    method Finish(chunk: seq<nat>, message: Option<real>) returns (step: Option<int>)
      requires Valid() && Samples(chunk) && |chunk| == samplesLeft
      modifies this, windows, controller
      ensures Valid() && Now() == FedAll(config, old(Now()), Piece(chunk, message))
      ensures samplesLeft == config.subblockSize
      ensures Handed(old(told), told, step)
    {
      FedToEnd(config, Now(), chunk, message);
      Take(chunk, message);
      step := EndOfSubblock();
    }

    method Part(chunk: seq<nat>, message: Option<real>)
      requires Valid() && Samples(chunk) && |chunk| < samplesLeft
      modifies this, windows
      ensures Valid() && Now() == FedAll(config, old(Now()), Piece(chunk, message)) && told == old(told)
    {
      FedWithin(config, Now(), chunk, message);
      if chunk != [] {
        Take(chunk, message);
      }
    }

    /** Count a piece if the subblock is active. */
    method Take(chunk: seq<nat>, message: Option<real>)
      requires Valid() && Samples(chunk) && 1 <= |chunk| <= samplesLeft
      modifies this`samplesLeft, this`histogram, this`counted, this`loudDecoded, windows
      ensures Now() == Took(config, old(Now()), chunk, message)
      ensures windows.Valid()
    {
      if active {
        if message.Some? {
          Skip(|chunk|, message.value);
        } else {
          Count(chunk);
        }
      }
      samplesLeft := samplesLeft - |chunk|;
    }

    /** A decoded message is counted if it is loud, and its samples are passed over. */
    method Skip(length: nat, signal: real)
      requires Valid()
      modifies this`loudDecoded, windows
      ensures windows.Valid()
      ensures Now() == old(Now()).(
        window :=
          if config.Bursts() then TickAll(old(windows.Now()), Quiet(length), config.windowSize) else old(windows.Now()),
        loudDecoded := if signal >= controller.loudThreshold then old(loudDecoded) + 1 else old(loudDecoded))
    {
      if signal >= controller.loudThreshold {
        loudDecoded := loudDecoded + 1;
      }
      if config.Bursts() {
        windows.Skip(length);
        assert Now().window == TickAll(old(windows.Now()), Quiet(length), windows.size);
      }
    }

    method Count(chunk: seq<nat>)
      requires Valid() && Samples(chunk)
      modifies this`histogram, this`counted, windows
      ensures windows.Valid()
      ensures Now() == old(Now()).(
        window := if config.Bursts() then TickAll(old(windows.Now()), chunk, config.windowSize) else old(windows.Now()),
        histogram := if config.Ranges() then AddedAll(old(histogram), chunk) else old(histogram),
        counted := if config.Ranges() then old(counted) + |chunk| else old(counted))
    {
      if config.Bursts() {
        windows.Update(chunk);
      }
      if config.Ranges() {
        RangeUpdate(chunk);
      }
    }

    method RangeUpdate(chunk: seq<nat>)
      requires Samples(chunk)
      modifies this`histogram, this`counted
      ensures histogram == AddedAll(old(histogram), chunk) && counted == old(counted) + |chunk|
    {
      counted := counted + |chunk|;
      ghost var before := histogram;
      for i := 0 to |chunk|
        invariant histogram == AddedAll(before, chunk[..i]) && counted == old(counted) + |chunk|
      {
        assert chunk[..i + 1][..i] == chunk[..i];
        histogram := histogram[chunk[i] := histogram[chunk[i]] + 1];
      }
      assert chunk[..|chunk|] == chunk;
    }

    ghost predicate Ready()
      reads this, windows, controller
    {
      && config.Sound() && windows.Valid() && windows.size == config.windowSize
      && controller.Valid() && controller.Fixed() == config.dial
    }

    method EndOfSubblock() returns (step: Option<int>)
      requires Ready() && subblocksLeft >= 1
      modifies this, windows, controller
      ensures Valid() && Now() == old(Now()).SubblockEnded(config) && Handed(old(told), told, step)
    {
      BeginSubblock();
      step := None;
      if subblocksLeft == 0 {
        subblocksLeft := config.subblocks;
        step := EndOfBlock();
      }
    }

    method BeginSubblock()
      requires Ready() && subblocksLeft >= 1
      modifies this`samplesLeft, this`duty, this`active, this`subblocksLeft, windows
      ensures Ready() && Now() == old(Now()).SubblockBegun(config)
    {
      samplesLeft := config.subblockSize;
      duty := duty + config.dutyN;
      if duty >= config.dutyD {
        duty, active := duty - config.dutyD, true;
      } else {
        active := false;
        windows.EndOfWindow(0);
      }
      subblocksLeft := subblocksLeft - 1;
    }

    method EndOfBlock() returns (step: Option<int>)
      requires Ready()
      modifies this`level, this`histogram, this`counted, this`bursts, this`burstRate, this`loudDecoded, this`decoded,
          this`decodedRate,
               this`told, windows`bursts, controller
      ensures Ready() && Now() == old(Now()).BlockEnded(config) && Handed(old(told), told, step)
    {
      RangeEndOfBlock();
      BurstEndOfBlock();
      step := Control();
    }

    method RangeEndOfBlock()
      requires config.Sound()
      modifies this`level, this`histogram, this`counted
      ensures Now() == old(Now()).RangeEnded(config)
    {
      if config.Ranges() {
        var n := IndexOf(counted, config.percentile);
        var at := Walk(histogram, n);
        LevelUnique(histogram, n, at, Level(histogram, n));
        level := level * (1.0 - config.rangeAlpha) + at as real * config.rangeAlpha;
        histogram, counted := Empty(), 0;
      }
    }

    method BurstEndOfBlock()
      requires config.Sound()
      modifies this`bursts, this`burstRate, this`loudDecoded, this`decoded, this`decodedRate, windows`bursts
      ensures Now() == old(Now()).BurstsEnded(config)
    {
      if config.Bursts() {
        var scale := config.dutyD as real / config.dutyN as real;
        bursts := bursts + windows.bursts;
        burstRate := burstRate * (1.0 - config.burstAlpha) + scale * windows.bursts as real * config.burstAlpha;
        windows.bursts := 0;
        decoded := decoded + loudDecoded;
        decodedRate := decodedRate * (1.0 - config.burstAlpha) + scale * loudDecoded as real * config.burstAlpha;
        loudDecoded := 0;
      }
    }

    /** The control step; its suggestion is taken. */
    method Control() returns (step: Option<int>)
      requires config.Sound() && controller.Valid() && controller.Fixed() == config.dial
      modifies this`told, controller
      ensures controller.Valid() && controller.Fixed() == config.dial
      ensures Now() == old(Now()).Controlled(config) && Handed(old(told), told, step)
    {
      var dynamicRange := if level > 0.0 then config.decibels(level) else 0.0;
      controller.ControlUpdate(Gain.Measured(burstRate, decodedRate, dynamicRange));
      step := controller.TakeSuggestion();
      if step.Some? {
        told := told + [step.value];
      }
    }
  }
}
