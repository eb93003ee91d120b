/** The adaptive gain controller's control step: burst and dynamic-range control of the gain. */
module Gain {
  import opened Wrappers
  import opened Arith

  datatype ScanState = Idle | ScanDown | RescanUp | RescanDown

  predicate Scanning(s: ScanState) { s.ScanDown? || s.RescanDown? }

  datatype Config = Config(
    minDb: real,
    maxDb: real,
    burstEnabled: bool,
    burstChangeDelay: nat,
    loudRate: real,
    loudRunlength: nat,
    quietRate: real,
    quietRunlength: nat,
    rangeEnabled: bool,
    targetDb: real,
    rangeChangeDelay: nat,
    rescanDelay: nat,
    loudness: real -> real)

  /** What one block measured. */
  datatype Measured = Measured(loudUndecoded: real, loudDecoded: real, dynamicRange: real)

  /** What the two controls ask for together; forbidding a rise outweighs asking for one. */
  datatype Wish = Wish(up: bool, down: bool, notUp: bool)

  predicate Poor(c: Config, m: Measured) { m.dynamicRange < c.targetDb }

  function Clamp(x: int, low: int, high: int): int
    requires low <= high
  {
    if x < low then low else if x > high then high else x
  }

  /** The first step with at least `minDb`, or the last step. */
  ghost predicate IsLowest(table: seq<real>, minDb: real, low: nat)
  {
    && low < |table| && (forall i :: 0 <= i < low ==> table[i] < minDb)
    && (low < |table| - 1 ==> table[low] >= minDb)
  }

  /** The last step from `low` on with at most `maxDb`, or `low`. */
  ghost predicate IsHighest(table: seq<real>, maxDb: real, low: nat, high: nat)
  {
    && low <= high < |table| && (forall i :: high < i < |table| ==> table[i] > maxDb)
    && (high > low ==> table[high] <= maxDb)
  }

  method GainLimits(table: seq<real>, minDb: real, maxDb: real) returns (low: nat, high: nat)
    requires table != []
    ensures IsLowest(table, minDb, low) && IsHighest(table, maxDb, low, high)
  {
    low := 0;
    while low < |table| - 1 && table[low] < minDb
      invariant low < |table| && forall i :: 0 <= i < low ==> table[i] < minDb
    {
      low := low + 1;
    }
    high := |table| - 1;
    while high > low && table[high] > maxDb
      invariant low <= high < |table| && forall i :: high < i < |table| ==> table[i] > maxDb
    {
      high := high - 1;
    }
  }

  lemma LimitsUnique(table: seq<real>, c: Config, low: nat, high: nat, low2: nat, high2: nat)
    requires IsLowest(table, c.minDb, low) && IsHighest(table, c.maxDb, low, high)
    requires IsLowest(table, c.minDb, low2) && IsHighest(table, c.maxDb, low2, high2)
    ensures low == low2 && high == high2
  {
  }

  // ---------------------------------------------------------------------
  // The control step as a function of what was measured
  // ---------------------------------------------------------------------

  /** What stays fixed while the controller runs. */
  datatype Dial = Dial(config: Config, table: seq<real>, gainMin: int, gainMax: int)
  {
    predicate Sound() { 0 <= gainMin <= gainMax < |table| }
  }

  datatype Control = Control(
    current: int,
    gainDownDb: real,
    loudThreshold: real,
    limit: int,
    state: ScanState,
    burstTimer: nat,
    rangeTimer: nat,
    rescanTimer: nat,
    loudBlocks: nat,
    quietBlocks: nat,
    suggested: Option<int>)
  {
    /** Thresholds and timers of the step. */
    function Changed(d: Dial): Control
      requires 0 <= current < |d.table|
    {
      this.(
        gainDownDb := if current >= 1 then d.table[current] - d.table[current - 1] else 0.0,
        loudThreshold :=
          d.config.loudness(if current + 1 < |d.table| then d.table[current + 1] - d.table[current] else 0.0),
        rangeTimer := d.config.rangeChangeDelay, burstTimer := d.config.burstChangeDelay,
        loudBlocks := 0, quietBlocks := 0)
    }

    function AtStep(d: Dial, step: int): Control
      requires d.Sound()
    {
      var to := Clamp(step, d.gainMin, d.gainMax);
      if to == current then this else this.(current := to).Changed(d)
    }

    function CountedDown(): Control
    {
      this.(burstTimer := Less(burstTimer), rangeTimer := Less(rangeTimer), rescanTimer := Less(rescanTimer))
    }

    function Bursts(c: Config, m: Measured): (Control, Wish)
    {
      if !c.burstEnabled || burstTimer != 0 then (this, Wish(false, false, false))
      else
        var counted := this.(
          loudBlocks := if m.loudUndecoded > c.loudRate then loudBlocks + 1 else 0,
          quietBlocks := if m.loudUndecoded <= c.loudRate && m.loudDecoded < c.quietRate then quietBlocks + 1 else 0);
        if counted.loudBlocks >= c.loudRunlength then
          (if Scanning(state) then counted.(state := Idle, rescanTimer := 0) else counted, Wish(false, true, true))
        else
          var quiet := counted.quietBlocks >= c.quietRunlength;
          (counted, Wish(quiet && current < limit, false, !quiet))
    }

    function Ranged(d: Dial, m: Measured, w: Wish): (Control, Wish)
    {
      if !d.config.rangeEnabled || rangeTimer != 0 then (this, w)
      else
        var raised := if m.dynamicRange >= d.config.targetDb && current > limit then current else limit;
        this.(limit := raised).Sought(d, m, w)
    }

    function Rested(c: Config): Control { this.(state := Idle, rescanTimer := c.rescanDelay) }

    function Below(): Control { this.(limit := if limit >= current then current - 1 else limit) }

    /** The scan goes on from its state. */
    function Sought(d: Dial, m: Measured, w: Wish): (Control, Wish)
    {
      var lower := w.(down := true, notUp := true);
      match state
      case RescanUp =>
        if Poor(d.config, m) then (Below().(state := RescanDown), lower)
        else if current >= d.gainMax then (Rested(d.config), w)
        else (this, w.(up := w.up || !w.notUp))
      case Idle =>
        if m.dynamicRange + gainDownDb / 2.0 < d.config.targetDb && current > d.gainMin then
          (Below().(state := ScanDown), lower)
        else if rescanTimer != 0 || w.notUp then (this, w)
        else if !Poor(d.config, m) && current < d.gainMax then (this.(state := RescanUp), w.(up := true))
        else (Rested(d.config), w)
      case _ =>
        if !Poor(d.config, m) then (Rested(d.config), w)
        else if current <= d.gainMin then (Below().Rested(d.config), w)
        else (Below(), lower)
    }

    function Applied(d: Dial, w: Wish): Control
      requires d.Sound()
    {
      if w.down then var k := AtStep(d, current - 1); k.(suggested := Some(k.current))
      else if w.up && !w.notUp then var k := AtStep(d, current + 1); k.(suggested := Some(k.current))
      else this
    }

    function Stepped(d: Dial, m: Measured): Control
      requires d.Sound()
    {
      var (k, burst) := CountedDown().Bursts(d.config, m);
      var (next, wish) := k.Ranged(d, m, burst);
      next.Applied(d, wish)
    }

    /** After the next `n` blocks of a run of measurements. */
    function After(d: Dial, measured: nat -> Measured, from: nat, n: nat): Control
      requires d.Sound()
      decreases n
    {
      if n == 0 then this else Stepped(d, measured(from)).After(d, measured, from + 1, n - 1)
    }

    /** The step stays within the range, and a downward scan has given up every step above it. */
    predicate Fits(d: Dial)
    {
      && d.gainMin <= current <= d.gainMax && d.gainMin - 1 <= limit <= d.gainMax
      && (Scanning(state) ==> limit <= current)
    }

    /** Undecoded bursts have been loud for long enough. */
    predicate Loud(c: Config, m: Measured)
    {
      m.loudUndecoded > c.loudRate && loudBlocks + 1 >= c.loudRunlength
    }

    /** What burst control may ask for, and why. */
    lemma BurstsKeep(c: Config, m: Measured, k: Control, w: Wish)
      requires (k, w) == Bursts(c, m)
      ensures k == this.(loudBlocks := k.loudBlocks, quietBlocks := k.quietBlocks, state := k.state,
          rescanTimer := k.rescanTimer)
      ensures k.state == state || (k.state == Idle && Scanning(state) && w.down)
      ensures w.down ==> w.notUp && !w.up && !Scanning(k.state) && c.burstEnabled && burstTimer == 0
      ensures w.down && c.loudRunlength >= 1 ==> Loud(c, m)
      ensures c.burstEnabled && burstTimer == 0 && Loud(c, m) ==> w.down
      ensures w.up ==>
        !w.notUp && current < limit && c.burstEnabled && burstTimer == 0 && k.quietBlocks >= c.quietRunlength
    {
    }

    /** A downward scan never asks for a rise, and the limit stays at or below where the scan has been. */
    lemma RangedKeeps(d: Dial, m: Measured, before: Wish, k: Control, w: Wish)
      requires Fits(d) && (before.up ==> current < limit) && (before.down ==> !Scanning(state))
      requires (k, w) == Ranged(d, m, before)
      ensures k == this.(state := k.state, limit := k.limit, rescanTimer := k.rescanTimer)
      ensures d.gainMin - 1 <= k.limit <= d.gainMax
      ensures Scanning(k.state) ==>
        k.limit <= (if w.down then Clamp(current - 1, d.gainMin, d.gainMax) else current) && (!w.up || w.notUp)
      ensures (before.down ==> w.down) && (before.notUp ==> w.notUp) && (before.up ==> w.up)
      ensures w.down && !before.down ==> w.notUp && d.config.rangeEnabled && rangeTimer == 0
      ensures w.down && !before.down ==> Poor(d.config, m) || m.dynamicRange + gainDownDb / 2.0 < d.config.targetDb
      ensures w.up && !before.up ==> !before.notUp && d.config.rangeEnabled && !Poor(d.config, m) && current < d.gainMax
      ensures Scanning(state) ==> w.up == before.up
      ensures k.state == RescanUp && state != RescanUp ==> w.up && !Scanning(state)
      ensures d.config.rangeEnabled && rangeTimer == 0 && Scanning(k.state) ==>
        w.down && (state != RescanUp ==> current > d.gainMin)
      ensures k.state == Idle && state != Idle ==> k.rescanTimer == d.config.rescanDelay
      ensures k.limit > limit ==> !Poor(d.config, m) && current - 1 <= k.limit <= current
      ensures k.limit < limit ==> k.limit == current - 1
    {
    }

    /**
     One control step: the step stays in range and moves by at most one, for a
     stated reason; a scan under a poor range rests, steps down or counts down.
     */
    lemma SteppedKeeps(d: Dial, m: Measured, next: Control)
      requires d.Sound() && Fits(d) && next == Stepped(d, m)
      ensures next.Fits(d) && current - 1 <= next.current <= current + 1
      ensures Scanning(state) ==> next.current <= current
      ensures next.current != current ==>
        next.suggested == Some(next.current) && next.rangeTimer == d.config.rangeChangeDelay
      ensures next.current > current ==>
        !(d.config.burstEnabled && burstTimer <= 1 && Loud(d.config, m))
        && ((d.config.burstEnabled && current < limit) || (d.config.rangeEnabled && !Poor(d.config, m)))
      ensures next.current < current ==>
        (d.config.burstEnabled && burstTimer <= 1 && (d.config.loudRunlength >= 1 ==> Loud(d.config, m)))
        || (d.config.rangeEnabled && rangeTimer <= 1
            && (Poor(d.config, m) || m.dynamicRange + gainDownDb / 2.0 < d.config.targetDb))
      ensures d.config.rangeEnabled && Poor(d.config, m) && Scanning(state) ==>
        && next.state != RescanUp
        && (next.state == Idle || next.current < current
            || (next.current == current && rangeTimer >= 2 && next.rangeTimer == rangeTimer - 1))
    {
      var counted := CountedDown();
      var (k, burst) := counted.Bursts(d.config, m);
      var (ranged, wish) := k.Ranged(d, m, burst);
      counted.BurstsKeep(d.config, m, k, burst);
      k.RangedKeeps(d, m, burst, ranged, wish);
    }

    /** Burst control acts in this block, and so does range control. */
    predicate BurstDue(d: Dial) { d.config.burstEnabled && burstTimer <= 1 }

    predicate RangeDue(d: Dial) { d.config.rangeEnabled && rangeTimer <= 1 }

    /** The run of loud blocks, or of quiet ones, has been long enough with this block. */
    predicate LoudNow(d: Dial, m: Measured)
    {
      && BurstDue(d)
      && (if m.loudUndecoded > d.config.loudRate then loudBlocks + 1 else 0) >= d.config.loudRunlength
    }

    predicate QuietNow(d: Dial, m: Measured)
    {
      d.config.quietRunlength <=
        if m.loudUndecoded <= d.config.loudRate && m.loudDecoded < d.config.quietRate then quietBlocks + 1 else 0
    }

    /** Burst control forbids a rise. */
    predicate Vetoed(d: Dial, m: Measured) { BurstDue(d) && (LoudNow(d, m) || !QuietNow(d, m)) }

    /** A downward scan that is ended by loud bursts counts as rest at once. */
    predicate AtRest(d: Dial, m: Measured) { state == Idle || (LoudNow(d, m) && Scanning(state)) }

    /** The range would be missed by more than half the gain step below. */
    predicate ClearlyPoor(d: Dial, m: Measured) { m.dynamicRange + gainDownDb / 2.0 < d.config.targetDb }

    /** The range is lost while looking for the highest step that keeps it, or clearly lost at rest. */
    predicate RangeLost(d: Dial, m: Measured)
    {
      if AtRest(d, m) then ClearlyPoor(d, m) && current > d.gainMin
      else Poor(d.config, m) && (state == RescanUp || current > d.gainMin)
    }

    /** A good range invites a look at the step above: on the way up, or when the rest is over. */
    predicate RangeInvites(d: Dial, m: Measured)
    {
      && !Poor(d.config, m) && current < d.gainMax && !RangeLost(d, m)
      && (state == RescanUp || (state == Idle && rescanTimer <= 1))
    }

    predicate MustFall(d: Dial, m: Measured) { LoudNow(d, m) || (RangeDue(d) && RangeLost(d, m)) }

    predicate MustRise(d: Dial, m: Measured)
    {
      && !MustFall(d, m) && !Vetoed(d, m)
      && ((BurstDue(d) && current < limit) || (RangeDue(d) && RangeInvites(d, m)))
    }

    /** The step falls, rises or stays exactly when its causes say so, and a move is suggested. */
    predicate MovesTo(d: Dial, m: Measured, next: Control)
      requires d.Sound()
    {
      && (MustFall(d, m) ==> next.current == Clamp(current - 1, d.gainMin, d.gainMax))
      && (MustRise(d, m) ==> next.current == current + 1)
      && (MustFall(d, m) || MustRise(d, m) ==> next.suggested == Some(next.current))
      && (!MustFall(d, m) && !MustRise(d, m) ==>
            next.current == current && next.suggested == suggested && next.rangeTimer == Less(rangeTimer))
    }

    /** A scan ends of itself: at the top, with the range found again, or at the bottom. */
    predicate ScanEnds(d: Dial, m: Measured)
    {
      !AtRest(d, m) && !RangeLost(d, m) && (state == RescanUp ==> current >= d.gainMax)
    }

    /** The rest is over, and no rise is forbidden. */
    predicate RestEnds(d: Dial, m: Measured)
    {
      AtRest(d, m) && !RangeLost(d, m) && !Vetoed(d, m) && rescanTimer <= 1
    }

    /** The state of the scan, its limit and the time of the next one. */
    predicate ScansTo(d: Dial, m: Measured, next: Control)
    {
      && (RangeDue(d) && RangeLost(d, m) ==>
            next.state == (if AtRest(d, m) then ScanDown else if state == RescanUp then RescanDown else state))
      && (RangeDue(d) && ScanEnds(d, m) ==> next.state == Idle && next.rescanTimer == d.config.rescanDelay)
      && (RangeDue(d) && RestEnds(d, m) && RangeInvites(d, m) ==> next.state == RescanUp)
      && (RangeDue(d) && RestEnds(d, m) && !RangeInvites(d, m) ==>
            next.state == Idle && next.rescanTimer == d.config.rescanDelay)
      && (!RangeDue(d) || !(RangeLost(d, m) || ScanEnds(d, m) || RestEnds(d, m)) ==>
            && next.state == (if AtRest(d, m) then Idle else state)
            && next.rescanTimer == (if state != Idle && AtRest(d, m) then 0 else Less(rescanTimer)))
      && (RangeDue(d) && (RangeLost(d, m) || (ScanEnds(d, m) && Poor(d.config, m))) ==>
            next.limit < current && (next.limit == limit || (limit >= current && next.limit == current - 1)
                                     || (!Poor(d.config, m) && next.limit == current - 1)))
      && (RangeDue(d) && !RangeLost(d, m) && !Poor(d.config, m) ==> next.limit == Later(limit, current))
      && (!RangeDue(d) || (Poor(d.config, m) && !RangeLost(d, m) && !ScanEnds(d, m)) ==> next.limit == limit)
    }

    /** Every move happens exactly when its stated causes hold. */
    lemma SteppedMoves(d: Dial, m: Measured)
      requires d.Sound() && Fits(d)
      ensures MovesTo(d, m, Stepped(d, m))
    {
      var counted := CountedDown();
      var (k, burst) := counted.Bursts(d.config, m);
      BurstsMean(d, m, k, burst);
      var (ranged, wish) := k.Ranged(d, m, burst);
      RangedMeans(d, m, k, burst, ranged, wish);
    }

    lemma BurstsMean(d: Dial, m: Measured, k: Control, w: Wish)
      requires (k, w) == CountedDown().Bursts(d.config, m)
      ensures w.down == LoudNow(d, m) && w.notUp == Vetoed(d, m)
      ensures w.up <==> BurstDue(d) && !Vetoed(d, m) && current < limit
      ensures k == CountedDown().(loudBlocks := k.loudBlocks, quietBlocks := k.quietBlocks, state := k.state,
          rescanTimer := k.rescanTimer)
      ensures k.state == if AtRest(d, m) then Idle else state
      ensures k.rescanTimer == if LoudNow(d, m) && Scanning(state) then 0 else Less(rescanTimer)
    {
    }

    lemma RangedMeans(d: Dial, m: Measured, k: Control, before: Wish, next: Control, w: Wish)
      requires Fits(d) && (k, before) == CountedDown().Bursts(d.config, m) && (next, w) == k.Ranged(d, m, before)
      ensures w.down == MustFall(d, m)
      ensures !w.down ==> (w.up && !w.notUp <==> MustRise(d, m))
      ensures next.current == current && next.suggested == suggested && next.rangeTimer == Less(rangeTimer)
      ensures next.gainDownDb == gainDownDb && next.loudThreshold == loudThreshold
    {
      BurstsMean(d, m, k, before);
    }

    /** So does every change of the scan's state, its limit and its timer. */
    lemma SteppedScans(d: Dial, m: Measured)
      requires d.Sound() && Fits(d)
      ensures ScansTo(d, m, Stepped(d, m))
    {
      var (k, burst) := CountedDown().Bursts(d.config, m);
      BurstsMean(d, m, k, burst);
    }

    /** The timers run down, the runs are counted while burst control acts, and a new step starts all of them anew. */
    predicate CountsTo(d: Dial, m: Measured, next: Control)
    {
      if next.current != current then Anew(d, next) else CountsOn(d, m, next)
    }

    predicate Anew(d: Dial, next: Control)
    {
      && next.burstTimer == d.config.burstChangeDelay && next.rangeTimer == d.config.rangeChangeDelay
      && next.loudBlocks == 0 && next.quietBlocks == 0
    }

    predicate CountsOn(d: Dial, m: Measured, next: Control)
    {
      && next.burstTimer == Less(burstTimer) && next.rangeTimer == Less(rangeTimer)
      && (!BurstDue(d) ==> next.loudBlocks == loudBlocks && next.quietBlocks == quietBlocks)
      && (BurstDue(d) ==>
            && (next.loudBlocks == 0 || next.quietBlocks == 0)
            && (m.loudUndecoded > d.config.loudRate ==> next.loudBlocks == loudBlocks + 1)
            && (m.loudUndecoded <= d.config.loudRate && m.loudDecoded < d.config.quietRate ==>
                  next.quietBlocks == quietBlocks + 1)
            && (m.loudUndecoded <= d.config.loudRate && m.loudDecoded >= d.config.quietRate ==>
                  next.loudBlocks == next.quietBlocks == 0))
    }

    lemma SteppedCounts(d: Dial, m: Measured)
      requires d.Sound() && Fits(d)
      ensures CountsTo(d, m, Stepped(d, m))
    {
      var (k, burst) := CountedDown().Bursts(d.config, m);
      BurstsCount(d, m, k, burst);
      var (ranged, wish) := k.Ranged(d, m, burst);
      k.RangedOnly(d, m, burst, ranged, wish);
      StepCounts(d, m, k, ranged, wish, ranged.Applied(d, wish));
    }

    lemma StepCounts(d: Dial, m: Measured, k: Control, ranged: Control, w: Wish, next: Control)
      requires d.Sound() && k.current == current && CountsOn(d, m, k) && next == ranged.Applied(d, w)
      requires ranged == k.(state := ranged.state, limit := ranged.limit, rescanTimer := ranged.rescanTimer)
      ensures CountsTo(d, m, next)
    {
      ranged.AppliedCounts(d, w, next);
    }

    lemma RangedOnly(d: Dial, m: Measured, before: Wish, k: Control, w: Wish)
      requires (k, w) == Ranged(d, m, before)
      ensures k == this.(state := k.state, limit := k.limit, rescanTimer := k.rescanTimer)
    {
    }

    lemma BurstsCount(d: Dial, m: Measured, k: Control, w: Wish)
      requires (k, w) == CountedDown().Bursts(d.config, m)
      ensures k.current == current && CountsOn(d, m, k)
    {
    }

    lemma AppliedCounts(d: Dial, w: Wish, next: Control)
      requires d.Sound() && next == Applied(d, w)
      ensures if next.current != current then Anew(d, next) else next == this.(suggested := next.suggested)
    {
    }

    /** The thresholds are those of the step: half the gap below it, and the loudness of the gap above it. */
    predicate InForce(d: Dial)
    {
      && 0 <= current < |d.table|
      && gainDownDb == d.table[current] - d.table[Clamp(current - 1, 0, |d.table| - 1)]
      && loudThreshold == d.config.loudness(d.table[Clamp(current + 1, 0, |d.table| - 1)] - d.table[current])
    }

    /** Every change of step brings its own thresholds into force, and they stay until the next change. */
    lemma ThresholdsInForce(d: Dial, m: Measured, next: Control)
      requires d.Sound() && Fits(d) && next == Stepped(d, m)
      ensures next.current != current || InForce(d) ==> next.InForce(d)
      ensures next.current == current ==> next.gainDownDb == gainDownDb && next.loudThreshold == loudThreshold
    {
      SteppedMoves(d, m);
      var (k, burst) := CountedDown().Bursts(d.config, m);
      BurstsMean(d, m, k, burst);
      var (ranged, wish) := k.Ranged(d, m, burst);
      RangedMeans(d, m, k, burst, ranged, wish);
    }

    /** The whole of what a control step owes. */
    predicate GoesTo(d: Dial, m: Measured, next: Control)
      requires d.Sound()
    {
      && MovesTo(d, m, next) && ScansTo(d, m, next) && CountsTo(d, m, next)
      && (next.current != current || InForce(d) ==> next.InForce(d))
    }

    lemma SteppedGoes(d: Dial, m: Measured, next: Control)
      requires d.Sound() && Fits(d) && next == Stepped(d, m)
      ensures GoesTo(d, m, next) && next.Fits(d)
    {
      SteppedMoves(d, m);
      SteppedScans(d, m);
      SteppedCounts(d, m);
      ThresholdsInForce(d, m, next);
      SteppedKeeps(d, m, next);
    }

    lemma ChangedInForce(d: Dial)
      requires 0 <= current < |d.table|
      ensures Changed(d).InForce(d)
    {
    }

    /** At the first step, thresholds that were never set are in force only if the loudness there is zero. */
    lemma UnsetInForce(d: Dial)
      requires current == 0 < |d.table| && gainDownDb == loudThreshold == 0.0
      ensures InForce(d) <==> d.config.loudness(d.table[Clamp(1, 0, |d.table| - 1)] - d.table[0]) == 0.0
    {
    }

    /** Nothing forbids a rise but a quiet run that is still too short. */
    predicate Quiet(c: Config, m: Measured)
    {
      c.burstEnabled ==> m.loudUndecoded <= c.loudRate && m.loudDecoded < c.quietRate && c.loudRunlength >= 1
    }

    /** How far the quiet run is from its length. */
    function Deficit(c: Config): nat
    {
      if c.burstEnabled && quietBlocks < c.quietRunlength then c.quietRunlength - quietBlocks else 0
    }

    /** A quiet block under a good range on the way up. */
    lemma ClimbStep(d: Dial, m: Measured, next: Control)
      requires d.Sound() && Fits(d) && d.config.rangeEnabled && state == RescanUp
      requires !Poor(d.config, m) && Quiet(d.config, m) && next == Stepped(d, m)
      ensures next.Fits(d) && !MustFall(d, m)
      ensures next.current == current || (next.current == current + 1 && next.rangeTimer == d.config.rangeChangeDelay)
      ensures next.state == RescanUp
        || (next.state == Idle && next.current == current == d.gainMax && next.rescanTimer == d.config.rescanDelay)
      ensures next.state == RescanUp && next.current == current ==>
        next.Wait(d.config) < Wait(d.config)
    {
      SteppedMoves(d, m);
      SteppedKeeps(d, m, next);
    }

    /** A bound on the blocks to the next move up. */
    function Wait(c: Config): nat { AtLeastOne(rangeTimer) + Deficit(c) }

    /** Nothing in burst control moves the step of a resting controller or forbids a rise. */
    predicate Undisturbed(c: Config) { c.burstEnabled ==> quietBlocks >= c.quietRunlength && limit <= current }

    /** A quiet block of a resting controller. */
    lemma RestStep(d: Dial, m: Measured, next: Control)
      requires d.Sound() && Fits(d) && d.config.rangeEnabled && state == Idle && current < d.gainMax
      requires Undisturbed(d.config) && Quiet(d.config, m) && !ClearlyPoor(d, m) && next == Stepped(d, m)
      ensures next.Fits(d)
      ensures rangeTimer > 1 || rescanTimer > 1 ==>
        && next.state == Idle && next.current == current && next.gainDownDb == gainDownDb
        && next.Undisturbed(d.config) && next.suggested == suggested
        && next.rangeTimer == Less(rangeTimer) && next.rescanTimer == Less(rescanTimer)
      ensures rangeTimer <= 1 && rescanTimer <= 1 && !Poor(d.config, m) ==>
        next.state == RescanUp && next.current == current + 1 && next.suggested == Some(current + 1)
      ensures rangeTimer <= 1 && rescanTimer <= 1 && Poor(d.config, m) ==>
        next.state == Idle && next.current == current && next.rescanTimer == d.config.rescanDelay
    {
      SteppedMoves(d, m);
      SteppedKeeps(d, m, next);
    }

    /** A scan that comes to rest of itself keeps its step and is given the whole delay. */
    lemma RestStarts(d: Dial, m: Measured, next: Control)
      requires d.Sound() && Fits(d) && next == Stepped(d, m) && state != Idle && next.state == Idle && !LoudNow(d, m)
      ensures next.current == current && next.rescanTimer == d.config.rescanDelay && next.rangeTimer == 0
      ensures d.config.rangeEnabled && next.gainDownDb == gainDownDb
    {
      SteppedMoves(d, m);
      ThresholdsInForce(d, m, next);
    }
  }

  class Controller {
    const config: Config
    var table: seq<real>
    var gainMin: int
    var gainMax: int
    var current: int
    var gainDownDb: real
    var loudThreshold: real
    var limit: int
    var state: ScanState
    var burstTimer: nat
    var rangeTimer: nat
    var rescanTimer: nat
    var loudBlocks: nat
    var quietBlocks: nat
    var suggested: Option<int>

    ghost predicate Valid()
      reads this
    {
      Fixed().Sound() && Now().Fits(Fixed())
    }

    ghost function Now(): Control
      reads this
    {
      Control(current, gainDownDb, loudThreshold, limit, state, burstTimer, rangeTimer, rescanTimer, loudBlocks,
          quietBlocks, suggested)
    }

    ghost function Fixed(): Dial
      reads this`table, this`gainMin, this`gainMax
    {
      Dial(config, table, gainMin, gainMax)
    }

    constructor (config: Config, table: seq<real>, step: int)
      requires table != []
      ensures Valid() && this.config == config && this.table == table && limit == current && state == RescanUp
      ensures IsLowest(table, config.minDb, gainMin) && IsHighest(table, config.maxDb, gainMin, gainMax)
      ensures current == Clamp(step, gainMin, gainMax)
      ensures Now().InForce(Fixed()) <==>
        current != 0 || config.loudness(table[Clamp(1, 0, |table| - 1)] - table[0]) == 0.0
      ensures current == 0 ==> loudThreshold == 0.0 && gainDownDb == 0.0
    {
      this.config, this.table := config, table;
      var low, high := GainLimits(table, config.minDb, config.maxDb);
      gainMin, gainMax := low, high;
      current, limit := Clamp(step, low, high), Clamp(step, low, high);
      gainDownDb, loudThreshold := 0.0, 0.0;
      state := RescanUp;
      burstTimer, rangeTimer, rescanTimer, loudBlocks, quietBlocks := 0, 0, 0, 0, 0;
      suggested := None;
      new;
      if current == 0 {
        Now().UnsetInForce(Fixed());
      } else {
        Now().ChangedInForce(Fixed());
        GainChanged();
      }
    }

    /** Thresholds and timers for a new step. */
    method GainChanged()
      requires 0 <= current < |table|
      modifies this`gainDownDb, this`loudThreshold, this`rangeTimer, this`burstTimer, this`loudBlocks, this`quietBlocks
      ensures Now() == old(Now()).Changed(Fixed())
    {
      var gainUpDb := if current + 1 < |table| then table[current + 1] - table[current] else 0.0;
      gainDownDb := if current >= 1 then table[current] - table[current - 1] else 0.0;
      loudThreshold := config.loudness(gainUpDb);
      rangeTimer, burstTimer := config.rangeChangeDelay, config.burstChangeDelay;
      loudBlocks, quietBlocks := 0, 0;
    }

    method SetGain(step: int)
      requires Fixed().Sound()
      modifies this`current, this`gainDownDb, this`loudThreshold, this`rangeTimer, this`burstTimer, this`loudBlocks,
          this`quietBlocks
      ensures Now() == old(Now()).AtStep(Fixed(), step)
    {
      var to := Clamp(step, gainMin, gainMax);
      if current != to {
        current := to;
        GainChanged();
      }
    }

    /** Burst control: loud runs lower the gain and stop a downward scan; only quiet runs let it rise. */
    method BurstControl(m: Measured) returns (w: Wish)
      modifies this`state, this`rescanTimer, this`loudBlocks, this`quietBlocks
      ensures (Now(), w) == old(Now()).Bursts(config, m)
    {
      w := Wish(false, false, false);
      if config.burstEnabled && burstTimer == 0 {
        if m.loudUndecoded > config.loudRate {
          quietBlocks, loudBlocks := 0, loudBlocks + 1;
        } else if m.loudDecoded < config.quietRate {
          loudBlocks, quietBlocks := 0, quietBlocks + 1;
        } else {
          loudBlocks, quietBlocks := 0, 0;
        }
        if loudBlocks >= config.loudRunlength {
          w := Wish(false, true, true);
          if Scanning(state) {
            state, rescanTimer := Idle, 0;
          }
        } else if quietBlocks < config.quietRunlength {
          w := Wish(false, false, true);
        } else if current < limit {
          w := Wish(true, false, false);
        }
      }
    }

    /** Range control: seek the highest gain that leaves the target range. */
    method RangeControl(m: Measured, before: Wish) returns (w: Wish)
      modifies this`state, this`limit, this`rescanTimer
      ensures (Now(), w) == old(Now()).Ranged(Fixed(), m, before)
    {
      w := before;
      if !config.rangeEnabled || rangeTimer != 0 {
        return;
      }
      if m.dynamicRange >= config.targetDb && current > limit {
        limit := current;
      }
      w := Seek(m, before);
    }

    /** Go on from the state of the scan. */
    method Seek(m: Measured, before: Wish) returns (w: Wish)
      modifies this`state, this`limit, this`rescanTimer
      ensures (Now(), w) == old(Now()).Sought(Fixed(), m, before)
    {
      match state {
        case RescanUp => w := Climb(m, before);
        case ScanDown | RescanDown => w := Descend(m, before);
        case Idle => w := Rest(m, before);
      }
    }

    /** Rescanning upwards, until the range is lost or the top is reached. */
    method Climb(m: Measured, before: Wish) returns (w: Wish)
      requires state == RescanUp
      modifies this`state, this`limit, this`rescanTimer
      ensures (Now(), w) == old(Now()).Sought(Fixed(), m, before)
    {
      w := before;
      if m.dynamicRange < config.targetDb {
        w := w.(down := true, notUp := true);
        state := RescanDown;
        LowerLimit();
      } else if current >= gainMax {
        state, rescanTimer := Idle, config.rescanDelay;
      } else if !w.notUp {
        w := w.(up := true);
      }
    }

    /** Scanning downwards, until the range is enough or the bottom is reached. */
    method Descend(m: Measured, before: Wish) returns (w: Wish)
      requires Scanning(state)
      modifies this`state, this`limit, this`rescanTimer
      ensures (Now(), w) == old(Now()).Sought(Fixed(), m, before)
    {
      w := before;
      if m.dynamicRange >= config.targetDb {
        state, rescanTimer := Idle, config.rescanDelay;
      } else {
        LowerLimit();
        if current <= gainMin {
          state, rescanTimer := Idle, config.rescanDelay;
        } else {
          w := w.(down := true, notUp := true);
        }
      }
    }

    /** At rest, until the range is clearly lost or it is time to look up again. */
    method Rest(m: Measured, before: Wish) returns (w: Wish)
      requires state == Idle
      modifies this`state, this`limit, this`rescanTimer
      ensures (Now(), w) == old(Now()).Sought(Fixed(), m, before)
    {
      w := before;
      if m.dynamicRange + gainDownDb / 2.0 < config.targetDb && current > gainMin {
        LowerLimit();
        state := ScanDown;
        w := w.(down := true, notUp := true);
      } else if rescanTimer == 0 && !w.notUp {
        if m.dynamicRange >= config.targetDb && current < gainMax {
          w := w.(up := true);
          state := RescanUp;
        } else {
          rescanTimer := config.rescanDelay;
        }
      }
    }

    /** The limit is brought below the current step. */
    method LowerLimit()
      modifies this`limit
      ensures Now() == old(Now()).Below()
    {
      if limit >= current {
        limit := current - 1;
      }
    }

    /** Apply what was asked for. */
    method Apply(w: Wish)
      requires Fixed().Sound()
      modifies this`current, this`gainDownDb, this`loudThreshold, this`rangeTimer, this`burstTimer, this`loudBlocks,
          this`quietBlocks, this`suggested
      ensures Now() == old(Now()).Applied(Fixed(), w)
    {
      if w.down {
        SetGain(current - 1);
        suggested := Some(current);
      } else if w.up && !w.notUp {
        SetGain(current + 1);
        suggested := Some(current);
      }
    }

    method CountDown()
      modifies this`burstTimer, this`rangeTimer, this`rescanTimer
      ensures Now() == old(Now()).CountedDown()
    {
      burstTimer, rangeTimer, rescanTimer := Less(burstTimer), Less(rangeTimer), Less(rescanTimer);
    }

    /** Hand out the suggestion and forget it. */
    method TakeSuggestion() returns (step: Option<int>)
      requires Valid()
      modifies this`suggested
      ensures Valid() && step == old(suggested) && Now() == old(Now()).(suggested := None)
    {
      step := suggested;
      suggested := None;
    }

    /** One control step at the end of a block. */
    method ControlUpdate(m: Measured)
      requires Valid()
      modifies this`current, this`gainDownDb, this`loudThreshold, this`limit, this`state, this`burstTimer,
          this`rangeTimer, this`rescanTimer,
               this`loudBlocks, this`quietBlocks, this`suggested
      ensures Valid() && Now() == old(Now()).Stepped(Fixed(), m)
      ensures old(Now()).GoesTo(Fixed(), m, Now())
    {
      CountDown();
      var burst := BurstControl(m);
      var wish := RangeControl(m, burst);
      Apply(wish);
      old(Now()).SteppedGoes(Fixed(), m, Now());
    }
  }

  function Less(timer: nat): nat { if timer > 0 then timer - 1 else 0 }

  function AtLeastOne(n: nat): nat { if n == 0 then 1 else n }

  /** A bound on the blocks a downward scan can still take while the range stays poor. */
  function ScanBound(steps: nat, timer: nat, delay: nat): nat
  {
    AtLeastOne(timer) + steps * AtLeastOne(delay)
  }

  lemma BoundFalls(steps: nat, fewer: nat, timer: nat, delay: nat)
    requires fewer < steps
    ensures ScanBound(fewer, delay, delay) < ScanBound(steps, timer, delay)
  {
    MulGap(AtLeastOne(delay), fewer, steps);
  }

  /** One step of a scan under a poor range ends it or brings its end nearer. */
  lemma ScanGoesOn(d: Dial, k: Control, m: Measured, next: Control)
    requires d.Sound() && k.Fits(d) && d.config.rangeEnabled && Scanning(k.state) && Poor(d.config, m)
    requires next == k.Stepped(d, m)
    ensures next.Fits(d) && next.current <= k.current && (next.state == Idle || Scanning(next.state))
    ensures Scanning(next.state) ==> BlocksLeft(d, next) < BlocksLeft(d, k)
    ensures BlocksLeft(d, k) >= 1
  {
    k.SteppedKeeps(d, m, next);
    if next.current < k.current {
      BoundFalls(k.current - d.gainMin, next.current - d.gainMin, k.rangeTimer, d.config.rangeChangeDelay);
    }
  }

  function BlocksLeft(d: Dial, k: Control): nat
    requires d.gainMin <= k.current
  {
    ScanBound(k.current - d.gainMin, k.rangeTimer, d.config.rangeChangeDelay)
  }

  /** Under a range that stays poor a downward scan comes to rest, within the bound and never higher. */
  lemma {:induction false} ScanComesToRest(d: Dial, k: Control, measured: nat -> Measured, from: nat)
    returns (blocks: nat)
    requires d.Sound() && k.Fits(d) && d.config.rangeEnabled && Scanning(k.state)
    requires forall n :: Poor(d.config, measured(n))
    ensures 1 <= blocks <= BlocksLeft(d, k)
    ensures var rest := k.After(d, measured, from, blocks); rest.state == Idle && rest.current <= k.current
    decreases BlocksLeft(d, k)
  {
    var next := k.Stepped(d, measured(from));
    ScanGoesOn(d, k, measured(from), next);
    blocks := 1;
    if next.state != Idle {
      var more := ScanComesToRest(d, next, measured, from + 1);
      blocks := more + 1;
    } else {
      assert next.After(d, measured, from + 1, 0) == next;
    }
  }

  /** The blocks between two moves up, at most. */
  function Pace(c: Config): nat { AtLeastOne(c.rangeChangeDelay) + c.quietRunlength }

  /** A bound on the blocks a climb can still take while all is well. */
  function ClimbBound(d: Dial, k: Control): int
  {
    Pace(d.config) * (d.gainMax - k.current) + k.Wait(d.config)
  }

  lemma BoundDrops(pace: nat, left: nat, next: nat, wait: nat, nextWait: nat)
    requires wait >= 1 && (next == left || next + 1 == left)
    requires if next == left then true else nextWait <= pace
    ensures next == left ==> pace * next == pace * left
    ensures next + 1 == left ==> pace * next + nextWait < pace * left + wait
    ensures pace * left >= 0
  {
    if next < left {
      MulGap(pace, next, left);
    }
  }

  lemma ClimbGoesOn(d: Dial, k: Control, m: Measured, next: Control)
    requires d.Sound() && k.Fits(d) && d.config.rangeEnabled && k.state == RescanUp
    requires !Poor(d.config, m) && k.Quiet(d.config, m) && next == k.Stepped(d, m)
    ensures next.Fits(d) && k.current <= next.current && ClimbBound(d, k) >= 1
    ensures next.state == RescanUp ==> ClimbBound(d, next) < ClimbBound(d, k)
    ensures next.state != RescanUp ==>
      next.state == Idle && next.current == d.gainMax && next.rescanTimer == d.config.rescanDelay
  {
    k.ClimbStep(d, m, next);
    assert k.Wait(d.config) >= 1 && (next.current != k.current ==> next.Wait(d.config) <= Pace(d.config));
    BoundDrops(Pace(d.config), d.gainMax - k.current, d.gainMax - next.current, k.Wait(d.config), next.Wait(d.config));
  }

  /** Under a range that stays good, with no burst against it, the gain climbs to the top and comes to rest there. */
  lemma {:induction false} ClimbReachesTop(d: Dial, k: Control, measured: nat -> Measured, from: nat)
    returns (blocks: nat)
    requires d.Sound() && k.Fits(d) && d.config.rangeEnabled && k.state == RescanUp
    requires forall n :: !Poor(d.config, measured(n)) && k.Quiet(d.config, measured(n))
    ensures 1 <= blocks <= ClimbBound(d, k)
    ensures var top := k.After(d, measured, from, blocks);
      top.state == Idle && top.current == d.gainMax && top.rescanTimer == d.config.rescanDelay
    decreases ClimbBound(d, k)
  {
    var next := k.Stepped(d, measured(from));
    ClimbGoesOn(d, k, measured(from), next);
    blocks := 1;
    if next.state == RescanUp {
      var more := ClimbReachesTop(d, next, measured, from + 1);
      blocks := more + 1;
    } else {
      assert next.After(d, measured, from + 1, 0) == next;
    }
  }

  function Later(a: int, b: int): int { if a < b then b else a }

  /** The block at which a resting controller looks up again: both timers have run out. */
  function LookUp(k: Control): nat { Later(1, Later(k.rangeTimer, k.rescanTimer)) }

  /** A resting controller keeps its step until its timers have run out, and with that block goes one step up. */
  lemma {:induction false} RestLooksUp(d: Dial, k: Control, measured: nat -> Measured, from: nat, n: nat)
    requires d.Sound() && k.Fits(d) && d.config.rangeEnabled && k.state == Idle && k.current < d.gainMax
    requires k.Undisturbed(d.config) && n <= LookUp(k)
    requires forall i :: k.Quiet(d.config, measured(i)) && !k.ClearlyPoor(d, measured(i))
    requires !Poor(d.config, measured(from + LookUp(k) - 1))
    ensures var then' := k.After(d, measured, from, n);
      if n < LookUp(k) then then'.state == Idle && then'.current == k.current
      else then'.state == RescanUp && then'.current == k.current + 1 && then'.suggested == Some(k.current + 1)
    decreases n
  {
    if n > 0 {
      var next := k.Stepped(d, measured(from));
      k.RestStep(d, measured(from), next);
      if LookUp(k) > 1 {
        forall i ensures k.Quiet(d.config, measured(i)) && !next.ClearlyPoor(d, measured(i)) {
        }
        RestLooksUp(d, next, measured, from + 1, n - 1);
      } else {
        assert next.After(d, measured, from + 1, 0) == next;
      }
    }
  }

  /** A scan that comes to rest of itself looks up again after exactly the rescan delay. */
  lemma LooksUpAfterDelay(d: Dial, k: Control, m: Measured, next: Control, measured: nat -> Measured, n: nat)
    requires d.Sound() && k.Fits(d) && next == k.Stepped(d, m)
    requires k.state != Idle && next.state == Idle && !k.LoudNow(d, m)
    requires next.current < d.gainMax && next.Undisturbed(d.config) && n <= AtLeastOne(d.config.rescanDelay)
    requires forall i :: k.Quiet(d.config, measured(i)) && !k.ClearlyPoor(d, measured(i))
    requires !Poor(d.config, measured(AtLeastOne(d.config.rescanDelay) - 1))
    ensures var then' := next.After(d, measured, 0, n);
      if n < AtLeastOne(d.config.rescanDelay) then then'.state == Idle && then'.current == k.current
      else then'.state == RescanUp && then'.current == k.current + 1
  {
    k.RestStarts(d, m, next);
    k.SteppedKeeps(d, m, next);
    RestLooksUp(d, next, measured, 0, n);
  }
}
