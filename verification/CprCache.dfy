/**
 The stateful CPR decoder: a bounded cache of recent frames per aircraft, in
 separate clock domains.  Instants and durations are whole nanoseconds.
 */
module CprCache {
  import opened Wrappers
  import opened Cpr

  const MAX_CACHE_ENTRIES: nat := 2048
  const PAIR_TIMEOUT: nat := 10_000_000_000
  const HOLD_TIME: nat := 60_000_000_000

  datatype CprType = Surface | Airborne | Coarse

  datatype Frame = Frame(kind: CprType, odd: bool, lat: nat, lon: nat)

  /** A processing instant, or a time since the start of a named capture epoch. */
  datatype Timestamp = Processing(instant: nat) | Capture(epoch: nat, elapsed: nat)

  predicate SameDomain(a: Timestamp, b: Timestamp)
  {
    match (a, b)
    case (Processing(_), Processing(_)) => true
    case (Capture(e, _), Capture(f, _)) => e == f
    case _ => false
  }

  /** The time from `earlier` to `now`, when both are in one domain and in that order. */
  function DurationSince(now: Timestamp, earlier: Timestamp): (d: Option<nat>)
    ensures d.Some? ==> SameDomain(now, earlier)
  {
    match (now, earlier)
    case (Processing(a), Processing(b)) => if a >= b then Some(a - b) else None
    case (Capture(e, a), Capture(f, b)) => if e == f && a >= b then Some(a - b) else None
    case _ => None
  }

  function Distance(a: Timestamp, b: Timestamp): Option<nat>
  {
    var d := DurationSince(a, b);
    if d.Some? then d else DurationSince(b, a)
  }

  /** Distance is exactly a symmetric, always-answering measure within one domain. */
  lemma DistanceIsSymmetric(a: Timestamp, b: Timestamp)
    ensures Distance(a, b) == Distance(b, a)
    ensures Distance(a, b).Some? <==> SameDomain(a, b)
  {
  }

  /** The derived order: no time first, processing before capture, then epoch and elapsed time. */
  predicate NoLater(a: Option<Timestamp>, b: Option<Timestamp>)
  {
    match (a, b)
    case (None, _) => true
    case (Some(_), None) => false
    case (Some(Processing(x)), Some(Processing(y))) => x <= y
    case (Some(Processing(_)), Some(Capture(_, _))) => true
    case (Some(Capture(_, _)), Some(Processing(_))) => false
    case (Some(Capture(e, x)), Some(Capture(f, y))) => e < f || (e == f && x <= y)
  }

  datatype TimedFrame = TimedFrame(frame: Frame, time: Timestamp)

  datatype Entry = Entry(
    even: Option<TimedFrame>,
    odd: Option<TimedFrame>,
    lastSeen: Option<Timestamp>,
    lastPosition: Option<Position>,
    lastPositionTime: Option<Timestamp>)

  const EMPTY_ENTRY: Entry := Entry(None, None, None, None, None)

  /** Forget what cannot be combined with `frame` at `now`. */
  function Prepare(entry: Entry, frame: Frame, now: Timestamp): Entry
  {
    var e := if entry.lastSeen.Some? && !SameDomain(now, entry.lastSeen.value) then EMPTY_ENTRY else entry;
    var cached := if e.even.Some? then e.even else e.odd;
    var e := if cached.Some? && cached.value.frame.kind != frame.kind
             then e.(even := None, odd := None, lastPosition := None, lastPositionTime := None) else e;
    var recent := e.lastPositionTime.Some?
               && DurationSince(now, e.lastPositionTime.value).Some?
               && DurationSince(now, e.lastPositionTime.value).value <= HOLD_TIME;
    var e := if recent then e else e.(lastPosition := None, lastPositionTime := None);
    e.(lastSeen := Some(now))
  }

  function Store(entry: Entry, frame: Frame, now: Timestamp): Entry
  {
    var timed := TimedFrame(frame, now);
    if frame.odd then entry.(odd := Some(timed)) else entry.(even := Some(timed))
  }

  function Locate(entry: Entry, position: Option<Position>, now: Timestamp): Entry
  {
    if position.Some? then entry.(lastPosition := position, lastPositionTime := Some(now)) else entry
  }

  /** The cached frame of the other parity, when it is close enough in time to pair with one at `now`. */
  function Partner(entry: Entry, odd: bool, now: Timestamp): Option<Frame>
  {
    var other := if odd then entry.even else entry.odd;
    if other.Some? && Distance(now, other.value.time).Some? && Distance(now, other.value.time).value <= PAIR_TIMEOUT
    then Some(other.value.frame) else None
  }

  function DecodeAirbornePair(partner: Frame, frame: Frame): Option<Position>
  {
    if frame.odd then DecodeAirborne(partner.lat, partner.lon, frame.lat, frame.lon, true)
    else DecodeAirborne(frame.lat, frame.lon, partner.lat, partner.lon, false)
  }

  function DecodeSurfacePair(ref: Position, partner: Frame, frame: Frame): Option<Position>
  {
    if frame.odd then DecodeSurface(ref, partner.lat, partner.lon, frame.lat, frame.lon, true)
    else DecodeSurface(ref, frame.lat, frame.lon, partner.lat, partner.lon, false)
  }

  /** What a frame decodes to, given the prepared entry of its aircraft. */
  function Decide(entry: Entry, frame: Frame, now: Timestamp): Option<Position>
  {
    if frame.kind != Airborne then None
    else
      var partner := Partner(entry, frame.odd, now);
      var global := if partner.Some? then DecodeAirbornePair(partner.value, frame) else None;
      if global.Some? then global
      else if entry.lastPosition.Some? then
        DecodeRelative(entry.lastPosition.value, frame.lat, frame.lon, frame.odd, false)
      else None
  }

  /** What a surface frame decodes to with a reference, given the prepared entry of its aircraft. */
  function DecideSurface(entry: Entry, frame: Frame, ref: Position, now: Timestamp): Option<Position>
  {
    var partner := Partner(entry, frame.odd, now);
    if partner.Some? then DecodeSurfacePair(ref, partner.value, frame) else None
  }

  // ---------------------------------------------------------------------
  // The log of accepted frames and of what was forgotten, and what it says
  // of the next answer
  // ---------------------------------------------------------------------

  /** A frame that was accepted, with the answer it got; or aircraft whose entries were dropped. */
  datatype Event =
    | Accepted(icao: nat, frame: Frame, time: Timestamp, answer: Option<Position>)
    | Forgotten(gone: set<nat>)

  predicate Mentions(e: Event, icao: nat)
  {
    match e
    case Accepted(of, _, _, _) => of == icao
    case Forgotten(gone) => icao in gone
  }

  /** Frame `i` is of this aircraft, and nothing since has come between: no drop, no other kind, no other clock. */
  ghost predicate Unbroken(h: seq<Event>, i: nat, icao: nat)
  {
    && i < |h| && h[i].Accepted? && h[i].icao == icao
    && forall k :: i < k < |h| && Mentions(h[k], icao) ==>
         h[k].Accepted? && h[k].frame.kind == h[i].frame.kind && SameDomain(h[k].time, h[i].time)
  }

  /** Event `i` is the aircraft's latest frame of that parity, and still stands. */
  ghost predicate LatestFrame(h: seq<Event>, i: nat, icao: nat, odd: bool)
  {
    && Unbroken(h, i, icao) && h[i].frame.odd == odd
    && forall k :: i < k < |h| && Mentions(h[k], icao) ==> h[k].frame.odd != odd
  }

  /** `then'` is not in the future of `now`, and at most a minute old. */
  predicate Fresh(now: Timestamp, then': Timestamp)
  {
    DurationSince(now, then').Some? && DurationSince(now, then').value <= 60_000_000_000
  }

  /** Event `j` is the aircraft's latest answer, still stands, and has been fresh at every frame since. */
  ghost predicate LatestAnswer(h: seq<Event>, j: nat, icao: nat)
  {
    && Unbroken(h, j, icao) && h[j].answer.Some?
    && forall k :: j < k < |h| && Mentions(h[k], icao) ==> h[k].answer.None? && Fresh(h[k].time, h[j].time)
  }

  /** Event `i` pairs with the frame: opposite parity, same kind and clock, at most ten seconds away. */
  ghost predicate PairsAt(h: seq<Event>, i: nat, icao: nat, frame: Frame, now: Timestamp)
  {
    && LatestFrame(h, i, icao, !frame.odd) && h[i].frame.kind == frame.kind
    && Distance(now, h[i].time).Some? && Distance(now, h[i].time).value <= 10_000_000_000
  }

  /** Event `j` answered a position that may serve as the frame's reference. */
  ghost predicate RefersTo(h: seq<Event>, j: nat, icao: nat, frame: Frame, now: Timestamp)
  {
    LatestAnswer(h, j, icao) && h[j].frame.kind == frame.kind && Fresh(now, h[j].time)
  }

  function EvenOf(a: Frame, b: Frame): Frame { if a.odd then b else a }

  function OddOf(a: Frame, b: Frame): Frame { if a.odd then a else b }

  /** Frames of opposite parity decode to `r` with `frame` in authority. */
  predicate AirbornePair(partner: Frame, frame: Frame, r: Option<Position>)
  {
    var even, odd := EvenOf(partner, frame), OddOf(partner, frame);
    r == DecodeAirborne(even.lat, even.lon, odd.lat, odd.lon, frame.odd)
  }

  predicate SurfacePair(ref: Position, partner: Frame, frame: Frame, r: Option<Position>)
  {
    var even, odd := EvenOf(partner, frame), OddOf(partner, frame);
    r == DecodeSurface(ref, even.lat, even.lon, odd.lat, odd.lon, frame.odd)
  }

  /** A pair in the log has an airborne position with the frame. */
  ghost predicate PairAnswers(h: seq<Event>, i: nat, icao: nat, frame: Frame, now: Timestamp)
  {
    PairsAt(h, i, icao, frame, now) && !AirbornePair(h[i].frame, frame, None)
  }

  /**
   What a frame is answered after the log `h`: the position of its pair; failing
   that, the position next to the aircraft's last answer; failing that, nothing.
   */
  ghost predicate AnswersAirborne(h: seq<Event>, icao: nat, frame: Frame, now: Timestamp, r: Option<Position>)
  {
    if frame.kind != Airborne then r == None
    else if exists i: nat :: PairAnswers(h, i, icao, frame, now) then
      forall i: nat :: PairAnswers(h, i, icao, frame, now) ==> AirbornePair(h[i].frame, frame, r)
    else if exists j: nat :: RefersTo(h, j, icao, frame, now) then
      forall j: nat :: RefersTo(h, j, icao, frame, now) ==>
        r == DecodeRelative(h[j].answer.value, frame.lat, frame.lon, frame.odd, false)
    else r == None
  }

  /** What a surface frame with a reference is answered: the position of its pair, or nothing. */
  ghost predicate AnswersSurface(
      h: seq<Event>, icao: nat, frame: Frame, ref: Position, now: Timestamp, r: Option<Position>)
  {
    if exists i: nat :: PairsAt(h, i, icao, frame, now) then
      forall i: nat :: PairsAt(h, i, icao, frame, now) ==> SurfacePair(ref, h[i].frame, frame, r)
    else r == None
  }

  // ---------------------------------------------------------------------
  // What an entry holds after a log
  // ---------------------------------------------------------------------

  /** The entry an aircraft has after a log; an empty one when it has none. */
  ghost function Remembered(h: seq<Event>, icao: nat): Entry
  {
    if h == [] then EMPTY_ENTRY
    else
      var before := Remembered(h[..|h| - 1], icao);
      match h[|h| - 1]
      case Accepted(of, frame, time, answer) =>
        if of != icao then before else Locate(Store(Prepare(before, frame, time), frame, time), answer, time)
      case Forgotten(gone) => if icao in gone then EMPTY_ENTRY else before
  }

  function Slot(entry: Entry, odd: bool): Option<TimedFrame> { if odd then entry.odd else entry.even }

  /** The entry has seen event `i` and what came after it, in one clock domain and of one kind. */
  ghost predicate Follows(entry: Entry, h: seq<Event>, i: nat)
  {
    && i < |h| && h[i].Accepted?
    && entry.lastSeen.Some? && SameDomain(entry.lastSeen.value, h[i].time)
    && (entry.even.Some? || entry.odd.Some?)
    && (entry.even.Some? ==> entry.even.value.frame.kind == h[i].frame.kind)
    && (entry.odd.Some? ==> entry.odd.value.frame.kind == h[i].frame.kind)
  }

  ghost predicate Holds(entry: Entry, odd: bool, h: seq<Event>, i: nat)
  {
    i < |h| && h[i].Accepted? && Slot(entry, odd) == Some(TimedFrame(h[i].frame, h[i].time))
  }

  ghost predicate Refers(entry: Entry, h: seq<Event>, j: nat)
  {
    j < |h| && h[j].Accepted? && entry.lastPosition == h[j].answer && entry.lastPositionTime == Some(h[j].time)
  }

  /** The cached frames of an aircraft are of one kind. */
  lemma {:induction false} OneKind(h: seq<Event>, icao: nat)
    ensures var e := Remembered(h, icao);
      e.even.Some? && e.odd.Some? ==> e.even.value.frame.kind == e.odd.value.frame.kind
  {
    if h != [] {
      OneKind(h[..|h| - 1], icao);
    }
  }

  /** An unbroken event is followed by the aircraft's entry. */
  lemma {:induction false} UnbrokenIsFollowed(h: seq<Event>, i: nat, icao: nat)
    requires Unbroken(h, i, icao)
    ensures Follows(Remembered(h, icao), h, i)
  {
    var n := |h| - 1;
    OneKind(h[..n], icao);
    if i < n {
      UnbrokenIsFollowed(h[..n], i, icao);
    }
  }

  /** The latest frame of a parity that still stands is the one cached, ... */
  lemma {:induction false} FrameIsHeld(h: seq<Event>, i: nat, icao: nat, odd: bool)
    requires LatestFrame(h, i, icao, odd)
    ensures Holds(Remembered(h, icao), odd, h, i)
  {
    var n := |h| - 1;
    if i < n {
      UnbrokenIsFollowed(h[..n], i, icao);
      FrameIsHeld(h[..n], i, icao, odd);
    }
  }

  /** ... and whatever is cached is such a frame. */
  lemma {:induction false} HeldIsFrame(h: seq<Event>, icao: nat, odd: bool) returns (i: nat)
    requires Slot(Remembered(h, icao), odd).Some?
    ensures LatestFrame(h, i, icao, odd)
  {
    var n := |h| - 1;
    i := n;
    if !(h[n].Accepted? && h[n].icao == icao && h[n].frame.odd == odd) {
      i := HeldIsFrame(h[..n], icao, odd);
      UnbrokenIsFollowed(h[..n], i, icao);
    }
  }

  /** The latest answer that still stands is the position kept, ... */
  lemma {:induction false} AnswerIsHeld(h: seq<Event>, j: nat, icao: nat)
    requires LatestAnswer(h, j, icao)
    ensures Refers(Remembered(h, icao), h, j)
  {
    var n := |h| - 1;
    if j < n {
      UnbrokenIsFollowed(h[..n], j, icao);
      AnswerIsHeld(h[..n], j, icao);
    }
  }

  /** ... and whatever position is kept is such an answer. */
  lemma {:induction false} HeldIsAnswer(h: seq<Event>, icao: nat) returns (j: nat)
    requires Remembered(h, icao).lastPosition.Some?
    ensures LatestAnswer(h, j, icao)
  {
    var n := |h| - 1;
    j := n;
    if !(h[n].Accepted? && h[n].icao == icao && h[n].answer.Some?) {
      j := HeldIsAnswer(h[..n], icao);
      UnbrokenIsFollowed(h[..n], j, icao);
      AnswerIsHeld(h[..n], j, icao);
    }
  }

  /** Event `i` is the last that mentions the aircraft. */
  ghost predicate LastMention(h: seq<Event>, i: nat, icao: nat)
  {
    i < |h| && Mentions(h[i], icao) && forall k :: i < k < |h| ==> !Mentions(h[k], icao)
  }

  /** An aircraft has an entry exactly when the last event that mentions it is a frame; the entry has its time. */
  lemma {:induction false} EntryIsRecent(h: seq<Event>, icao: nat) returns (last: nat)
    ensures Remembered(h, icao) != EMPTY_ENTRY ==>
      LastMention(h, last, icao) && h[last].Accepted? && Remembered(h, icao).lastSeen == Some(h[last].time)
    ensures Remembered(h, icao) == EMPTY_ENTRY ==>
      forall i: nat :: LastMention(h, i, icao) ==> h[i].Forgotten?
  {
    last := 0;
    if h != [] {
      var n := |h| - 1;
      last := EntryIsRecent(h[..n], icao);
      if Mentions(h[n], icao) {
        last := n;
      } else {
        assert forall i: nat :: LastMention(h, i, icao) ==> LastMention(h[..n], i, icao);
      }
    }
  }

  /** The partner a frame finds in its prepared entry is the one the log gives it. */
  lemma PartnerIsPair(h: seq<Event>, icao: nat, frame: Frame, now: Timestamp, entry: Entry)
    requires entry == Prepare(Remembered(h, icao), frame, now)
    ensures forall i: nat :: PairsAt(h, i, icao, frame, now) ==> Partner(entry, frame.odd, now) == Some(h[i].frame)
    ensures Partner(entry, frame.odd, now).Some? ==> exists i: nat :: PairsAt(h, i, icao, frame, now)
  {
    var more := h + [Accepted(icao, frame, now, None)];
    assert more[..|h|] == h;
    forall i: nat | PairsAt(h, i, icao, frame, now) ensures Partner(entry, frame.odd, now) == Some(h[i].frame) {
      DistanceIsSymmetric(now, h[i].time);
      FrameIsHeld(more, i, icao, !frame.odd);
    }
    if Partner(entry, frame.odd, now).Some? {
      var i := HeldIsFrame(more, icao, !frame.odd);
      FrameIsHeld(more, i, icao, !frame.odd);
      assert PairsAt(h, i, icao, frame, now);
    }
  }

  lemma ReferenceIsAnswer(h: seq<Event>, icao: nat, frame: Frame, now: Timestamp, entry: Entry)
    requires entry == Prepare(Remembered(h, icao), frame, now)
    ensures forall j: nat :: RefersTo(h, j, icao, frame, now) ==> entry.lastPosition == h[j].answer
    ensures entry.lastPosition.Some? ==> exists j: nat :: RefersTo(h, j, icao, frame, now)
  {
    var more := h + [Accepted(icao, frame, now, None)];
    assert more[..|h|] == h;
    forall j: nat | RefersTo(h, j, icao, frame, now) ensures entry.lastPosition == h[j].answer {
      AnswerIsHeld(more, j, icao);
    }
    if entry.lastPosition.Some? {
      var j := HeldIsAnswer(more, icao);
      assert RefersTo(h, j, icao, frame, now);
    }
  }

  /** The answer decided from the prepared entry is the one the log owes. */
  lemma AirborneAnswered(h: seq<Event>, icao: nat, frame: Frame, now: Timestamp, entry: Entry)
    requires entry == Prepare(Remembered(h, icao), frame, now)
    ensures AnswersAirborne(h, icao, frame, now, Decide(entry, frame, now))
  {
    PartnerIsPair(h, icao, frame, now, entry);
    ReferenceIsAnswer(h, icao, frame, now, entry);
  }

  lemma SurfaceAnswered(h: seq<Event>, icao: nat, frame: Frame, ref: Position, now: Timestamp, entry: Entry)
    requires entry == Prepare(Remembered(h, icao), frame, now)
    ensures AnswersSurface(h, icao, frame, ref, now, DecideSurface(entry, frame, ref, now))
  {
    PartnerIsPair(h, icao, frame, now, entry);
  }

  /** A frame that encodes `p`. */
  predicate Encodes(frame: Frame, p: Position)
  {
    frame.lat == EncodeLatitude(p, frame.odd, frame.kind == Surface)
    && frame.lon == EncodeLongitude(p, frame.odd, frame.kind == Surface)
  }

  /** A pair of frames of one position decodes to that position to within half a quantum. */
  lemma PairLocates(p: Position, partner: Frame, frame: Frame, r: Position) returns (t: int)
    requires LatitudeInRange(p.lat)
    requires partner.kind == frame.kind == Airborne && partner.odd != frame.odd
    requires Encodes(partner, p) && Encodes(frame, p)
    requires AirbornePair(partner, frame, Some(r))
    ensures RealAbs(r.lat - p.lat) <= (if frame.odd then 360.0 / 59.0 else 6.0) / 262144.0
    ensures RealAbs(r.lon + 360.0 * t as real - p.lon)
         <= LongitudeZoneSize(GridZones(p.lat, frame.odd, false), frame.odd, false) / 262144.0
  {
    t := AirborneAccuracy(p, frame.odd, r);
  }

  // ---------------------------------------------------------------------
  // The decoder
  // ---------------------------------------------------------------------

  /** Whether pruning at `now` keeps an entry. */
  predicate Recent(entry: Entry, maxAge: nat, now: Timestamp)
  {
    entry.lastSeen.Some?
    && Distance(now, entry.lastSeen.value).Some? && Distance(now, entry.lastSeen.value).value <= maxAge
  }

  /** The eviction order is total and transitive. */
  lemma NoLaterIsOrder(a: Option<Timestamp>, b: Option<Timestamp>, c: Option<Timestamp>)
    ensures NoLater(a, b) || NoLater(b, a)
    ensures NoLater(a, b) && NoLater(b, c) ==> NoLater(a, c)
  {
  }

  predicate Oldest(k: nat, keys: set<nat>, cache: map<nat, Entry>)
    requires keys <= cache.Keys
  {
    k in keys && forall j :: j in keys ==> NoLater(cache[k].lastSeen, cache[j].lastSeen)
  }

  lemma OldestExists(keys: set<nat>, cache: map<nat, Entry>) returns (oldest: nat)
    requires keys != {} && keys <= cache.Keys
    ensures Oldest(oldest, keys, cache)
  {
    var k :| k in keys;
    NoLaterIsOrder(cache[k].lastSeen, cache[k].lastSeen, cache[k].lastSeen);
    if keys == {k} {
      oldest := k;
    } else {
      var m := OldestExists(keys - {k}, cache);
      oldest := if NoLater(cache[k].lastSeen, cache[m].lastSeen) then k else m;
      forall j | j in keys ensures NoLater(cache[oldest].lastSeen, cache[j].lastSeen) {
        NoLaterIsOrder(cache[k].lastSeen, cache[m].lastSeen, cache[j].lastSeen);
      }
    }
  }

  /** Every entry of `a` is an entry of `b`. */
  ghost predicate Submap(a: map<nat, Entry>, b: map<nat, Entry>)
  {
    forall k :: k in a ==> k in b && a[k] == b[k]
  }

  /** The entries pruning at `now` keeps. */
  function Pruned(cache: map<nat, Entry>, maxAge: nat, now: Timestamp): map<nat, Entry>
  {
    map k | k in cache && Recent(cache[k], maxAge, now) :: cache[k]
  }

  /**
   What making room leaves: everything, unless the cache is full; then what is
   not stale; and one entry less, an oldest, only if nothing was stale and the
   aircraft is new.
   */
  ghost predicate Evicted(cache: map<nat, Entry>, room: map<nat, Entry>, icao: nat, now: Timestamp)
  {
    if |cache| < 2048 then room == cache
    else if icao in cache || Pruned(cache, 60_000_000_000, now) != cache then
      room == Pruned(cache, 60_000_000_000, now)
    else exists oldest: nat :: Oldest(oldest, cache.Keys, cache) && room == cache - {oldest}
  }

  /**
   Making room never forgets a recent aircraft, save one that none precedes, when all
   are recent and the frame's is new.
   */
  lemma EvictedKeeps(cache: map<nat, Entry>, room: map<nat, Entry>, icao: nat, now: Timestamp)
    requires |cache| <= MAX_CACHE_ENTRIES && Evicted(cache, room, icao, now)
    ensures |room| < MAX_CACHE_ENTRIES || icao in room
    ensures Submap(room, cache)
    ensures icao in cache && Recent(cache[icao], HOLD_TIME, now) ==> icao in room
    ensures forall k :: k in cache && k !in room && Recent(cache[k], HOLD_TIME, now) ==>
              icao !in cache && Oldest(k, cache.Keys, cache) && room == cache - {k}
  {
    if |cache| == MAX_CACHE_ENTRIES {
      var kept := Pruned(cache, HOLD_TIME, now);
      if icao in cache || kept != cache {
        SubmapSize(kept, cache);
        if |kept| == |cache| {
          SameSize(kept, cache);
        }
      } else {
        var oldest: nat :| Oldest(oldest, cache.Keys, cache) && room == cache - {oldest};
        assert room.Keys == cache.Keys - {oldest};
      }
    }
  }

  lemma SameSize(a: map<nat, Entry>, b: map<nat, Entry>)
    requires Submap(a, b) && |a| == |b|
    ensures a == b
  {
    assert |b.Keys| == |a.Keys| + |b.Keys - a.Keys|;
  }

  /** What a new frame finds of its aircraft. */
  function Found(room: map<nat, Entry>, icao: nat): Entry
  {
    if icao in room then room[icao] else EMPTY_ENTRY
  }

  predicate WellFormed(frame: Frame) { frame.lat < QUANTA && frame.lon < QUANTA }

  predicate InRange(ref: Position) { LatitudeInRange(ref.lat) && -180.0 <= ref.lon <= 180.0 }

  /** The cache holds what the log says, for every aircraft. */
  ghost predicate Matches(cache: map<nat, Entry>, h: seq<Event>)
  {
    forall k: nat :: Found(cache, k) == Remembered(h, k) && (k in cache <==> Remembered(h, k) != EMPTY_ENTRY)
  }

  /** Dropping entries and forgetting their aircraft go together. */
  lemma MatchesWhenDropped(cache: map<nat, Entry>, h: seq<Event>, kept: map<nat, Entry>)
    requires Matches(cache, h) && Submap(kept, cache)
    ensures Matches(kept, h + [Forgotten(cache.Keys - kept.Keys)])
  {
    var more := h + [Forgotten(cache.Keys - kept.Keys)];
    assert more[..|h|] == h;
    forall k: nat
      ensures Found(kept, k) == Remembered(more, k) && (k in kept <==> Remembered(more, k) != EMPTY_ENTRY)
    {
      assert Found(cache, k) == Remembered(h, k);
    }
  }

  /** Writing an entry back and accepting its frame go together. */
  lemma MatchesWhenStored(cache: map<nat, Entry>, h: seq<Event>, icao: nat, frame: Frame, now: Timestamp,
                          r: Option<Position>, stored: Entry)
    requires Matches(cache, h)
    requires stored == Locate(Store(Prepare(Found(cache, icao), frame, now), frame, now), r, now)
    ensures Matches(cache[icao := stored], h + [Accepted(icao, frame, now, r)])
  {
    var more := h + [Accepted(icao, frame, now, r)];
    var then' := cache[icao := stored];
    assert more[..|h|] == h;
    forall k: nat
      ensures Found(then', k) == Remembered(more, k) && (k in then' <==> Remembered(more, k) != EMPTY_ENTRY)
    {
      assert Found(cache, k) == Remembered(h, k);
    }
  }

  /** The log after an aircraft was given room: what was dropped for it is forgotten. */
  ghost function MadeRoom(h: seq<Event>, cache: map<nat, Entry>, room: map<nat, Entry>): seq<Event>
  {
    h + [Forgotten(cache.Keys - room.Keys)]
  }

  class Decoder {
    var cache: map<nat, Entry>
    /** Every frame accepted with its answer, and every aircraft dropped, in order. */
    ghost var history: seq<Event>

    ghost predicate Valid()
      reads this
    {
      |cache| <= MAX_CACHE_ENTRIES && Matches(cache, history)
    }

    constructor ()
      ensures Valid() && cache == map[] && history == []
    {
      cache, history := map[], [];
    }

    method PruneOlderThanAt(maxAge: nat, now: Timestamp)
      requires Valid()
      modifies this
      ensures Valid()
      ensures cache == Pruned(old(cache), maxAge, now)
      ensures history == MadeRoom(old(history), old(cache), cache)
    {
      var kept := Pruned(cache, maxAge, now);
      SubmapSize(kept, cache);
      MatchesWhenDropped(cache, history, kept);
      history := MadeRoom(history, cache, kept);
      cache := kept;
    }

    /** Remove one entry that no other precedes. */
    method RemoveOldest() returns (oldest: nat)
      requires Valid() && cache.Keys != {}
      modifies this
      ensures Valid()
      ensures Oldest(oldest, old(cache).Keys, old(cache))
      ensures cache == old(cache) - {oldest} && |cache| == |old(cache)| - 1
    {
      ghost var candidate := OldestExists(cache.Keys, cache);
      oldest :| Oldest(oldest, cache.Keys, cache);
      var rest := cache - {oldest};
      assert rest.Keys == cache.Keys - {oldest};
      MatchesWhenDropped(cache, history, rest);
      history := MadeRoom(history, cache, rest);
      cache := rest;
    }

    /** Make room for one more aircraft, dropping stale entries first and then the oldest. */
    method EvictOldestIfFull(icao: nat, now: Timestamp)
      requires Valid()
      modifies this
      ensures Valid()
      ensures Evicted(old(cache), cache, icao, now) && history == MadeRoom(old(history), old(cache), cache)
    {
      if |cache| >= MAX_CACHE_ENTRIES {
        PruneOlderThanAt(HOLD_TIME, now);
        ghost var kept := cache;
        EvictedWhenPruned(old(cache), kept, icao, now);
        var maxAllowed := if icao in cache then MAX_CACHE_ENTRIES else MAX_CACHE_ENTRIES - 1;
        while |cache| > maxAllowed
          invariant Valid()
          invariant cache == kept || (|cache| <= maxAllowed && Evicted(old(cache), cache, icao, now))
          decreases |cache|
        {
          var oldest := RemoveOldest();
        }
      }
      EvictedKeeps(old(cache), cache, icao, now);
      MatchesWhenDropped(old(cache), old(history), cache);
      history := MadeRoom(old(history), old(cache), cache);
    }

    /** Find room for an aircraft and prepare its entry for a frame. */
    method TakeEntry(icao: nat, frame: Frame, now: Timestamp) returns (entry: Entry)
      requires Valid()
      modifies this
      ensures Valid()
      ensures |cache| < MAX_CACHE_ENTRIES || icao in cache
      ensures Evicted(old(cache), cache, icao, now) && history == MadeRoom(old(history), old(cache), cache)
      ensures entry == Prepare(Found(cache, icao), frame, now) == Prepare(Remembered(history, icao), frame, now)
    {
      EvictOldestIfFull(icao, now);
      EvictedKeeps(old(cache), cache, icao, now);
      entry := Prepare(if icao in cache then cache[icao] else EMPTY_ENTRY, frame, now);
    }

    /** Write back an entry with its new frame and, when it was located, its new position. */
    method Record(icao: nat, entry: Entry, frame: Frame, now: Timestamp, r: Option<Position>)
      requires Valid()
      requires |cache| < MAX_CACHE_ENTRIES || icao in cache
      requires entry == Prepare(Found(cache, icao), frame, now)
      modifies this
      ensures Valid()
      ensures cache == old(cache)[icao := Locate(Store(entry, frame, now), r, now)]
      ensures history == old(history) + [Accepted(icao, frame, now, r)]
    {
      var updated := cache[icao := Locate(Store(entry, frame, now), r, now)];
      assert updated.Keys == cache.Keys + {icao};
      MatchesWhenStored(cache, history, icao, frame, now, r, updated[icao]);
      history := history + [Accepted(icao, frame, now, r)];
      cache := updated;
    }

    /**
     Take one frame of an aircraft at `now` and answer it as the log demands;
     `room` is what making room for it left.
     */
    method SubmitWithTimestamp(icao: nat, frame: Frame, now: Timestamp)
      returns (r: Option<Position>, ghost room: map<nat, Entry>)
      requires Valid()
      modifies this
      ensures Valid()
      ensures !WellFormed(frame) ==> r == None && cache == old(cache) && history == old(history)
      ensures WellFormed(frame) ==>
        var h := MadeRoom(old(history), old(cache), room);
        && Evicted(old(cache), room, icao, now)
        && AnswersAirborne(h, icao, frame, now, r) && history == h + [Accepted(icao, frame, now, r)]
    {
      if !WellFormed(frame) {
        return None, cache;
      }
      var entry := TakeEntry(icao, frame, now);
      room := cache;
      r := Decide(entry, frame, now);
      AirborneAnswered(history, icao, frame, now, entry);
      Record(icao, entry, frame, now, r);
    }

    /** Take a surface frame together with a reference that resolves its grid. */
    method SubmitSurfaceWithTimestamp(icao: nat, frame: Frame, ref: Position, now: Timestamp)
      returns (r: Option<Position>, ghost room: map<nat, Entry>)
      requires Valid()
      modifies this
      ensures Valid()
      ensures !(frame.kind == Surface && WellFormed(frame) && InRange(ref)) ==>
        r == None && cache == old(cache) && history == old(history)
      ensures frame.kind == Surface && WellFormed(frame) && InRange(ref) ==>
        var h := MadeRoom(old(history), old(cache), room);
        && Evicted(old(cache), room, icao, now)
        && AnswersSurface(h, icao, frame, ref, now, r) && history == h + [Accepted(icao, frame, now, r)]
    {
      if frame.kind != Surface || !WellFormed(frame) || !InRange(ref) {
        return None, cache;
      }
      var entry := TakeEntry(icao, frame, now);
      room := cache;
      r := DecideSurface(entry, frame, ref, now);
      SurfaceAnswered(history, icao, frame, ref, now, entry);
      Record(icao, entry, frame, now, r);
    }
  }

  /** Pruning a full cache is all there is to do, unless nothing was stale and the aircraft is new. */
  lemma EvictedWhenPruned(cache: map<nat, Entry>, kept: map<nat, Entry>, icao: nat, now: Timestamp)
    requires |cache| == MAX_CACHE_ENTRIES && kept == Pruned(cache, HOLD_TIME, now)
    ensures |kept| <= MAX_CACHE_ENTRIES
    ensures |kept| < MAX_CACHE_ENTRIES || icao in kept ==> Evicted(cache, kept, icao, now)
    ensures |kept| == MAX_CACHE_ENTRIES ==> kept == cache
  {
    SubmapSize(kept, cache);
    if |kept| == |cache| {
      SameSize(kept, cache);
    }
  }

  lemma SubmapSize(a: map<nat, Entry>, b: map<nat, Entry>)
    requires a.Keys <= b.Keys
    ensures |a| <= |b|
  {
    assert |b.Keys| == |a.Keys| + |b.Keys - a.Keys|;
  }
}
