/**
 Airborne pairs of a moving aircraft: the even frame was sent at one position and
 the odd frame at another.
 */
module CprMoving {
  import opened Wrappers
  import opened Arith
  import opened Cpr

  // ---------------------------------------------------------------------
  // The zone of each frame
  // ---------------------------------------------------------------------

  lemma SameResidue(k: int, s: int, n: int)
    requires n >= 1
    ensures (k + s) % n == k % n <==> s % n == 0
  {
    var q, r := s / n, s % n;
    assert s == n * q + r;
    DivModShift(k + r, n, q);
    assert (k + s) % n == (k + r) % n;
    RemainderMoves(k, r, n);
  }

  lemma RemainderMoves(k: int, r: int, n: int)
    requires 0 <= r < n
    ensures (k + r) % n == k % n <==> r == 0
  {
    var q, low := k / n, k % n;
    assert k == n * q + low;
    if low + r < n {
      DivModUnique(k + r, n, q, low + r);
    } else {
      assert n * (q + 1) == n * q + n;
      DivModUnique(k + r, n, q + 1, low + r - n);
    }
  }

  /** Modulo either zone count, the zone index is that frame's zone, moved by the offset. */
  lemma ZoneOfEither(a: int, even: int, odd: int, m: int, fflag: bool, n: int)
    requires 1 <= a <= 60 && n == ZonesForParity(a, fflag) && m == ZoneIndex(even % QUANTA, odd % QUANTA, a)
    ensures m % n == ((if fflag then odd else even) / QUANTA + ZoneOffset(a, even, odd)) % n
  {
    var k0, k1, s := even / QUANTA, odd / QUANTA, ZoneOffset(a, even, odd);
    ZoneIndexOfAny(a, even, odd);
    ZoneIndexIdentity(a, k0, k1);
    if a >= 2 {
      ShiftedModulo((if fflag then k1 else k0) + s, n, k1 - k0, m);
    }
  }

  /** A frame's own zone comes out exactly when the offset is a multiple of its zone count. */
  lemma ZoneIsOwn(a: int, x0: real, x1: real, fflag: bool, x: real, n: int)
    requires 1 <= a <= 60 && n == ZonesForParity(a, fflag) && x == if fflag then x1 else x0
    ensures ZoneIndex(Encode(x0), Encode(x1), a) % n == TotalQuanta(x) / QUANTA % n
       <==> ZoneOffset(a, TotalQuanta(x0), TotalQuanta(x1)) % n == 0
  {
    var even, odd := TotalQuanta(x0), TotalQuanta(x1);
    EncodeIsGlobalRounding(x0);
    EncodeIsGlobalRounding(x1);
    ZoneOfEither(a, even, odd, ZoneIndex(Encode(x0), Encode(x1), a), fflag, n);
    SameResidue(TotalQuanta(x) / QUANTA, ZoneOffset(a, even, odd), n);
  }

  lemma NoOffset(a: int, even: int, odd: int, n: int)
    requires n >= 1 && Together(a, even, odd)
    ensures ZoneOffset(a, even, odd) % n == 0
  {
    ZoneIndexOfAny(a, even, odd);
    DivModUnique(0, n, 0, 0);
  }

  // ---------------------------------------------------------------------
  // Latitude
  // ---------------------------------------------------------------------

  /** The latitudes at which the two frames were sent, in zones of their own grids. */
  function EvenZones(p: Position): real { InZones(p.lat, 60, false) }

  function OddZones(q: Position): real { InZones(q.lat, 59, false) }

  function LatitudeOffset(p: Position, q: Position): int
  {
    ZoneOffset(60, TotalQuanta(EvenZones(p)), TotalQuanta(OddZones(q)))
  }

  /** What a pair decodes to for the latitude of its authoritative frame. */
  function PairOfTwo(p: Position, q: Position, fflag: bool): real
  {
    WrapLatitude(RawLatitude(EncodeLatitude(p, false, false), EncodeLatitude(q, true, false), fflag, false))
  }

  function Sender(p: Position, q: Position, fflag: bool): Position
  {
    if fflag then q else p
  }

  /** The latitude is that of the authoritative frame exactly when the offset is a multiple of its zone count. */
  lemma LatitudeOfTwo(p: Position, q: Position, fflag: bool)
    requires LatitudeInRange(p.lat) && LatitudeInRange(q.lat)
    ensures PairOfTwo(p, q, fflag) == QuantisedLatitude(Sender(p, q, fflag).lat, fflag, false)
       <==> LatitudeOffset(p, q) % LatitudeZonesForParity(fflag) == 0
  {
    var x0, x1, n := EvenZones(p), OddZones(q), LatitudeZonesForParity(fflag);
    var e0, e1, x := Encode(x0), Encode(x1), if fflag then x1 else x0;
    ZoneIsOwn(60, x0, x1, fflag, x, n);
    QuantisedLatitudeInRange(Sender(p, q, fflag).lat, fflag, false);
    RawLatitudeInSpan(e0, e1, fflag, false);
    LatitudePlaced(if fflag then 360.0 / 59.0 else 6.0, fflag, e0, e1, n,
                   ZoneIndex(e0, e1, 60) % n, TotalQuanta(x) / QUANTA % n, x,
                   RawLatitude(e0, e1, fflag, false), QuantisedLatitude(Sender(p, q, fflag).lat, fflag, false));
  }

  lemma LatitudePlaced(
      size: real, odd: bool, e0: int, e1: int, n: int, zone: int, own: int, x: real, raw: real, lat: real)
    requires n == LatitudeZonesForParity(odd) && size == (if odd then 360.0 / 59.0 else 6.0)
    requires Encode(x) == if odd then e1 else e0
    requires zone == ZoneIndex(e0, e1, 60) % n && own == TotalQuanta(x) / QUANTA % n
    requires raw == RawLatitude(e0, e1, odd, false) && lat == size * Quantised(x) && LatitudeInRange(lat)
    requires 0.0 <= raw < 360.0
    ensures WrapLatitude(raw) == lat <==> zone == own
  {
    RawLatitudeOf(e0, e1, odd, n, ZoneIndex(e0, e1, 60), Encode(x), size);
    PlacedSomewhere(360.0, size, n, zone, own, x, Turns(x, n), raw, lat);
    RightZoneOnly(size, n, zone, own, raw, lat, Turns(x, n));
  }

  lemma RawLatitudeOf(e0: int, e1: int, odd: bool, n: int, m: int, e: int, size: real)
    requires n == LatitudeZonesForParity(odd) && m == ZoneIndex(e0, e1, 60) && e == if odd then e1 else e0
    requires size == if odd then 360.0 / 59.0 else 6.0
    ensures RawLatitude(e0, e1, odd, false) == PairCoordinate(m, n, size, e)
  {
  }

  /** A coordinate placed in some zone is off by whole zones, and whole spans. */
  lemma PlacedSomewhere(span: real, size: real, n: int, zone: int, own: int, x: real, t: int, raw: real, right: real)
    requires n >= 1 && size * n as real == span && own == TotalQuanta(x) / QUANTA % n && t == Turns(x, n)
    requires raw == size * (zone as real + Encode(x) as real / 131072.0) && right == size * Quantised(x)
    ensures raw - (right - span * t as real) == size * (zone - own) as real
  {
    PlaceInZone(x, n, own);
    SpanOfZones(size, n, span, own, Encode(x), Quantised(x), t);
    Apart(size, zone, own, Encode(x) as real / 131072.0);
  }

  lemma Apart(size: real, zone: int, own: int, part: real)
    ensures size * (zone as real + part) - size * (own as real + part) == size * (zone - own) as real
  {
  }

  /** A latitude placed in some zone of the circle is the right one only in the right zone. */
  lemma RightZoneOnly(size: real, n: int, zone: int, own: int, raw: real, lat: real, t: int)
    requires n >= 1 && size > 0.0 && size * n as real == 360.0 && 0 <= zone < n && 0 <= own < n
    requires raw - (lat - 360.0 * t as real) == size * (zone - own) as real
    requires LatitudeInRange(lat) && 0.0 <= raw < 360.0
    ensures WrapLatitude(raw) == lat <==> zone == own
  {
    var apart := zone - own;
    if zone == own {
      WrapLatitudeUnique(raw, lat, t);
    } else if WrapLatitude(raw) == lat {
      WholeSpans(360.0, size, n, apart, if raw >= 270.0 then t + 1 else t);
    }
  }

  /** Less than a span of zones is no whole number of spans, unless it is none. */
  lemma WholeSpans(span: real, size: real, n: int, apart: int, spans: int)
    requires n >= 1 && size > 0.0 && size * n as real == span && -n < apart < n
    requires size * apart as real == span * spans as real
    ensures apart == 0
  {
    var whole := n * spans;
    assert size * whole as real == span * spans as real by {
      ScaledSpans(span, size, n, spans);
    }
    assert apart as real == whole as real by {
      SameFactor(size, apart as real, whole as real);
    }
    assert spans >= 1 ==> whole >= n;
    assert spans <= -1 ==> whole <= -n;
  }

  lemma ScaledSpans(span: real, size: real, n: int, spans: int)
    requires size * n as real == span
    ensures size * (n * spans) as real == span * spans as real
  {
    RealProduct(n, spans);
    assert size * (n as real * spans as real) == size * n as real * spans as real;
  }

  lemma SameFactor(size: real, x: real, y: real)
    requires size > 0.0 && size * x == size * y
    ensures x == y
  {
    assert size * (x - y) == 0.0;
  }

  // ---------------------------------------------------------------------
  // Longitude and position
  // ---------------------------------------------------------------------

  /** The frames' longitudes, on grids of the same zone count. */
  function LongitudeOffset(p: Position, q: Position, nl: int): int
    requires 1 <= nl <= 59
  {
    ZoneOffset(nl, TotalQuanta(InZones(p.lon, nl, false)), TotalQuanta(InZones(q.lon, ZonesForParity(nl, true), false)))
  }

  /** The longitude is that of the authoritative frame exactly when the offset is a multiple of its zone count. */
  lemma LongitudeOfTwo(p: Position, q: Position, nl: int, fflag: bool, e0: int, e1: int)
    requires 1 <= nl <= 59
    requires e0 == Encode(InZones(p.lon, nl, false)) && e1 == Encode(InZones(q.lon, ZonesForParity(nl, true), false))
    ensures WrapLongitude(RawLongitude(nl, e0, e1, fflag, false))
         == WrapLongitude(QuantisedLongitude(Sender(p, q, fflag).lon, nl, fflag, false))
       <==> LongitudeOffset(p, q, nl) % ZonesForParity(nl, fflag) == 0
  {
    var x0, x1, lon := InZones(p.lon, nl, false), InZones(q.lon, ZonesForParity(nl, true), false),
        Sender(p, q, fflag).lon;
    var right := QuantisedLongitude(lon, nl, fflag, false);
    assert right == LongitudeZoneSize(nl, fflag, false) * Quantised(if fflag then x1 else x0) by {
      QuantisedLongitudeOf(lon, nl, ZonesForParity(nl, fflag), fflag, false, if fflag then x1 else x0,
                           LongitudeZoneSize(nl, fflag, false));
    }
    LongitudeOnGrids(nl, fflag, x0, x1, if fflag then x1 else x0, ZonesForParity(nl, fflag), right);
  }

  lemma LongitudeOnGrids(nl: int, odd: bool, x0: real, x1: real, x: real, n: int, right: real)
    requires 1 <= nl <= 59 && n == ZonesForParity(nl, odd) && x == (if odd then x1 else x0)
    requires right == LongitudeZoneSize(nl, odd, false) * Quantised(x)
    ensures WrapLongitude(RawLongitude(nl, Encode(x0), Encode(x1), odd, false)) == WrapLongitude(right)
       <==> ZoneOffset(nl, TotalQuanta(x0), TotalQuanta(x1)) % n == 0
  {
    var m, own := ZoneIndex(Encode(x0), Encode(x1), nl), TotalQuanta(x) / QUANTA % n;
    ZoneIsOwn(nl, x0, x1, odd, x, n);
    LongitudePlaced(nl, odd, Encode(x0), Encode(x1), x, n, LongitudeZoneSize(nl, odd, false), m % n, own,
                    RawLongitude(nl, Encode(x0), Encode(x1), odd, false), right);
  }

  lemma LongitudePlaced(
      nl: int, odd: bool, e0: int, e1: int, x: real, n: int, d: real, zone: int, own: int, raw: real, right: real)
    requires 1 <= nl <= 59 && n == ZonesForParity(nl, odd) && d == LongitudeZoneSize(nl, odd, false)
    requires Encode(x) == (if odd then e1 else e0) && zone == ZoneIndex(e0, e1, nl) % n
    requires own == TotalQuanta(x) / QUANTA % n
    requires raw == RawLongitude(nl, e0, e1, odd, false) && right == d * Quantised(x)
    ensures WrapLongitude(raw) == WrapLongitude(right) <==> zone == own
  {
    RawLongitudeAt(nl, n, odd, false, e0, e1, Encode(x), ZoneIndex(e0, e1, nl), d, zone);
    OnCircle(d, n, zone, own, x, Turns(x, n), raw, right);
  }

  lemma RawLongitudeAt(nl: int, n: int, odd: bool, surface: bool, e0: int, e1: int, e: int, m: int, d: real, zone: int)
    requires nl >= 1 && n == ZonesForParity(nl, odd) && d == LongitudeZoneSize(nl, odd, surface)
    requires m == ZoneIndex(e0, e1, nl) && e == (if odd then e1 else e0) && zone == m % n
    ensures RawLongitude(nl, e0, e1, odd, surface) == d * (zone as real + e as real / 131072.0)
  {
    RawLongitudeOf(nl, n, odd, surface, e0, e1, e, m, d);
  }

  lemma OnCircle(d: real, n: int, zone: int, own: int, x: real, t: int, raw: real, right: real)
    requires n >= 1 && d > 0.0 && d * n as real == 360.0 && 0 <= zone < n && own == TotalQuanta(x) / QUANTA % n
    requires t == Turns(x, n)
    requires raw == d * (zone as real + Encode(x) as real / 131072.0) && right == d * Quantised(x)
    ensures WrapLongitude(raw) == WrapLongitude(right) <==> zone == own
  {
    PlacedSomewhere(360.0, d, n, zone, own, x, t, raw, right);
    RightTurnOnly(d, n, zone, own, raw, right, t);
  }

  lemma RightTurnOnly(size: real, n: int, zone: int, own: int, raw: real, lon: real, t: int)
    requires n >= 1 && size > 0.0 && size * n as real == 360.0 && 0 <= zone < n && 0 <= own < n
    requires raw - (lon - 360.0 * t as real) == size * (zone - own) as real
    ensures WrapLongitude(raw) == WrapLongitude(lon) <==> zone == own
  {
    WrapIgnoresTurns(lon, t);
    var apart := zone - own;
    var t1 := WrapCountsTurns(raw);
    var t2 := WrapCountsTurns(lon);
    if zone != own && WrapLongitude(raw) == WrapLongitude(lon) {
      WholeSpans(360.0, size, n, apart, t1 - t2 + t);
    }
  }

  /** The latitudes of two positions lie within one window. */
  predicate LatitudesTogether(p: Position, q: Position)
  {
    Together(60, TotalQuanta(EvenZones(p)), TotalQuanta(OddZones(q)))
  }

  lemma LatitudeOfEither(p: Position, q: Position, fflag: bool, e0: int, e1: int)
    requires LatitudeInRange(p.lat) && LatitudeInRange(q.lat) && LatitudesTogether(p, q)
    requires e0 == EncodeLatitude(p, false, false) && e1 == EncodeLatitude(q, true, false)
    ensures LatitudeInRange(QuantisedLatitude(Sender(p, q, fflag).lat, fflag, false))
    ensures WrapLatitude(RawLatitude(e0, e1, fflag, false)) == QuantisedLatitude(Sender(p, q, fflag).lat, fflag, false)
  {
    NoOffset(60, TotalQuanta(EvenZones(p)), TotalQuanta(OddZones(q)), LatitudeZonesForParity(fflag));
    LatitudeOfTwo(p, q, fflag);
    QuantisedLatitudeInRange(Sender(p, q, fflag).lat, fflag, false);
  }

  /**
   A pair sent from two positions whose latitudes lie within one window: decoding
   answers exactly when both frames are in the same zone count, and then with the
   very point the authoritative frame stands for if and only if the longitude
   offset is a multiple of that frame's zone count.
   */
  lemma MovingRoundTrip(p: Position, q: Position, fflag: bool, r: Option<Position>)
    requires LatitudeInRange(p.lat) && LatitudeInRange(q.lat) && LatitudesTogether(p, q)
    requires r == DecodeAirborne(EncodeLatitude(p, false, false), EncodeLongitude(p, false, false),
                                 EncodeLatitude(q, true, false), EncodeLongitude(q, true, false), fflag)
    ensures var nl := GridZones(p.lat, false, false);
      && (r.Some? <==> nl == GridZones(q.lat, true, false))
      && (r.Some? ==> r.value.lat == QuantisedLatitude(Sender(p, q, fflag).lat, fflag, false))
      && (r == Some(QuantisedPosition(Sender(p, q, fflag), fflag, false)) <==>
          r.Some? && LongitudeOffset(p, q, nl) % ZonesForParity(nl, fflag) == 0)
  {
    LatitudeOfEither(p, q, false, EncodeLatitude(p, false, false), EncodeLatitude(q, true, false));
    LatitudeOfEither(p, q, true, EncodeLatitude(p, false, false), EncodeLatitude(q, true, false));
    if GridZones(p.lat, false, false) == GridZones(q.lat, true, false) {
      LongitudeOfTwo(p, q, GridZones(p.lat, false, false), fflag, EncodeLongitude(p, false, false),
                     EncodeLongitude(q, true, false));
    }
  }

  // ---------------------------------------------------------------------
  // How far an aircraft may move
  // ---------------------------------------------------------------------

  /** Angles, in quanta of the circle, that are close enough on grids of `a` and `a - 1` zones lie within one window. */
  lemma CloseIsTogether(v: real, w: real, a: int, even: int, odd: int)
    requires 1 <= a <= 60 && even == (a as real * v + 0.5).Floor && odd == ((a - 1) as real * w + 0.5).Floor
    requires -65476.0 <= (a * (a - 1)) as real * (v - w) <= 65476.0
    ensures Together(a, even, odd)
  {
    var r, b := a as real, (a - 1) as real;
    var e0, e1 := even as real - r * v, odd as real - b * w;
    var difference := b * even as real - r * odd as real;
    assert difference == (a * (a - 1)) as real * (v - w) + (b * e0 - r * e1) by {
      CrossMoves(r, b, v, w, e0, e1, even as real, odd as real);
      RealProduct(a, a - 1);
    }
    CrossBound(r, b, e0, e1);
    assert ((a - 1) * even - a * odd) as real == difference by {
      RealProduct(a - 1, even);
      RealProduct(a, odd);
    }
  }

  lemma CrossMoves(r: real, b: real, v: real, w: real, e0: real, e1: real, even: real, odd: real)
    requires even == r * v + e0 && odd == b * w + e1
    ensures b * even - r * odd == r * b * (v - w) + (b * e0 - r * e1)
  {
    assert b * even == b * (r * v) + b * e0;
    assert r * odd == r * (b * w) + r * e1;
    assert b * (r * v) == r * b * v && r * (b * w) == r * b * w;
    assert r * b * (v - w) == r * b * v - r * b * w;
  }

  /** Frames sent within a twentieth of a degree of latitude of one another are within one window. */
  lemma WithinTwentieth(p: Position, q: Position)
    requires -0.05 <= p.lat - q.lat <= 0.05
    ensures LatitudesTogether(p, q)
  {
    var v, w := 131072.0 * (p.lat / 360.0), 131072.0 * (q.lat / 360.0);
    assert 131072.0 * EvenZones(p) == 60.0 * v && 131072.0 * OddZones(q) == 59.0 * w;
    assert v - w == 131072.0 / 360.0 * (p.lat - q.lat);
    CloseIsTogether(v, w, 60, TotalQuanta(EvenZones(p)), TotalQuanta(OddZones(q)));
  }
}
