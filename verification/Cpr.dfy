/**
 Compact Position Reporting: the global (even/odd pair), surface and relative
 decoders, and the encoder of RTCA DO-260B, Appendix A, section A.1.7, that they
 are meant to invert.  Degrees are exact reals; the 17-bit fields are integers.
 */
module Cpr {
  import opened Wrappers
  import opened Arith

  datatype Position = Position(lat: real, lon: real)

  /** 2^17, the number of quanta in one zone. */
  const QUANTA: int := 131072

  // ---------------------------------------------------------------------
  // Arithmetic of the decoder
  // ---------------------------------------------------------------------

  /** The remainder of a machine division, which truncates toward zero. */
  function TruncatedRemainder(a: int, b: int): int
    requires b > 0
  {
    if a >= 0 then a % b else -((-a) % b)
  }

  /** Always-positive modulo for integers. */
  function CprMod(a: int, b: int): (r: int)
    requires b > 0
    ensures 0 <= r < b && r == a % b
  {
    var res := TruncatedRemainder(a, b);
    var r := if res < 0 then res + b else res;
    assert 0 <= r < b && r == a % b by {
      if a < 0 {
        var q := (-a) / b;
        assert a == b * (-q) - (-a) % b;
        if res < 0 {
          assert a == b * (-q - 1) + r;
          DivModUnique(a, b, -q - 1, r);
        } else {
          DivModUnique(a, b, -q, 0);
        }
      }
    }
    r
  }

  /** The floating remainder: the quotient is truncated toward zero. */
  function TruncatedRealRemainder(a: real, b: real): real
    requires b > 0.0
  {
    if a >= 0.0 then a - b * (a / b).Floor as real else -(-a - b * (-a / b).Floor as real)
  }

  /** Always-positive modulo for reals. */
  function CprModReal(a: real, b: real): real
    requires b > 0.0
  {
    var res := TruncatedRealRemainder(a, b);
    if res < 0.0 then res + b else res
  }

  /**
   The latitudes (degrees, equator first) at which the number of longitude zones
   drops by one, from 59 at the equator to 1 beyond the last.
   */
  const BOUNDARIES: seq<real> :=
    BOUNDARIES_59 + BOUNDARIES_49 + BOUNDARIES_39 + BOUNDARIES_29 + BOUNDARIES_19 + BOUNDARIES_9

  /** The ends of 59 to 50 zones, of 49 to 40, and so on. */
  const BOUNDARIES_59: seq<real> := [
    10.47047130, 14.82817437, 18.18626357, 21.02939493, 23.54504487,
    25.82924707, 27.93898710, 29.91135686, 31.77209708, 33.53993436
  ]

  const BOUNDARIES_49: seq<real> := [
    35.22899598, 36.85025108, 38.41241892, 39.92256684, 41.38651832,
    42.80914012, 44.19454951, 45.54626723, 46.86733252, 48.16039128
  ]

  const BOUNDARIES_39: seq<real> := [
    49.42776439, 50.67150166, 51.89342469, 53.09516153, 54.27817472,
    55.44378444, 56.59318756, 57.72747354, 58.84763776, 59.95459277
  ]

  const BOUNDARIES_29: seq<real> := [
    61.04917774, 62.13216659, 63.20427479, 64.26616523, 65.31845310,
    66.36171008, 67.39646774, 68.42322022, 69.44242631, 70.45451075
  ]

  const BOUNDARIES_19: seq<real> := [
    71.45986473, 72.45884545, 73.45177442, 74.43893416, 75.42056257,
    76.39684391, 77.36789461, 78.33374083, 79.29428225, 80.24923213
  ]

  const BOUNDARIES_9: seq<real> := [
    81.19801349, 82.13956981, 83.07199445, 83.99173563, 84.89166191,
    85.75541621, 86.53536998, 87.00000000
  ]

  /** The zone count is that of the first boundary above `lat`. */
  function ZonesFrom(table: seq<real>, zones: int, lat: real): (nl: int)
    ensures zones - |table| <= nl <= zones
  {
    if table == [] || lat < table[0] then zones else ZonesFrom(table[1..], zones - 1, lat)
  }

  /** The number of longitude zones at a latitude. */
  function LongitudeZones(lat: real): (nl: int)
    ensures 1 <= nl <= 59
  {
    ZonesFrom(BOUNDARIES, 59, if lat < 0.0 then -lat else lat)
  }

  /** Away from the equator, north or south, zones only get fewer. */
  lemma LongitudeZonesShrink(a: real, b: real)
    requires RealAbs(a) <= RealAbs(b)
    ensures LongitudeZones(b) <= LongitudeZones(a)
    ensures LongitudeZones(-a) == LongitudeZones(a)
  {
    ZonesFromShrinks(BOUNDARIES, 59, RealAbs(a), RealAbs(b));
  }

  lemma {:induction false} ZonesFromShrinks(table: seq<real>, zones: int, a: real, b: real)
    requires a <= b
    ensures ZonesFrom(table, zones, b) <= ZonesFrom(table, zones, a)
  {
    if table != [] {
      ZonesFromShrinks(table[1..], zones - 1, a, b);
    }
  }

  /** The zones of one frame's parity, where the even grid has `nl` of them. */
  function ZonesForParity(nl: int, odd: bool): (n: int)
    requires nl >= 1
    ensures 1 <= n <= nl
  {
    var n := nl - if odd then 1 else 0;
    if n < 1 then 1 else n
  }

  /** The degrees one grid covers: the circle, or a quarter of it on the surface. */
  function Span(surface: bool): real { if surface then 90.0 else 360.0 }

  function LongitudeZoneSize(nl: int, odd: bool, surface: bool): (d: real)
    requires nl >= 1
    ensures d > 0.0 && d * ZonesForParity(nl, odd) as real == Span(surface)
  {
    Span(surface) / ZonesForParity(nl, odd) as real
  }

  // ---------------------------------------------------------------------
  // Decoders
  // ---------------------------------------------------------------------

  /** The zone-index equation shared by latitude (60, 59) and longitude (NL, NL - 1). */
  function ZoneIndex(even: int, odd: int, evenZones: int): int
  {
    (((evenZones - 1) * even - evenZones * odd) as real / 131072.0 + 0.5).Floor
  }

  function WrapLatitude(lat: real): real
  {
    if lat >= 270.0 then lat - 360.0 else lat
  }

  function WrapLongitude(lon: real): (r: real)
    ensures -180.0 <= r < 180.0
  {
    lon - ((lon + 180.0) / 360.0).Floor as real * 360.0
  }

  predicate LatitudeInRange(lat: real) { -90.0 <= lat <= 90.0 }

  /** One coordinate of the frame whose grid has `zones` zones and whose bits are `own`. */
  function PairCoordinate(index: int, zones: int, size: real, own: int): real
    requires zones >= 1
  {
    size * (CprMod(index, zones) as real + own as real / 131072.0)
  }

  /** Latitude of the selected frame, before its ambiguity is resolved. */
  function RawLatitude(evenLat: int, oddLat: int, odd: bool, surface: bool): real
  {
    var j := ZoneIndex(evenLat, oddLat, 60);
    if odd then PairCoordinate(j, 59, Span(surface) / 59.0, oddLat)
    else PairCoordinate(j, 60, Span(surface) / 60.0, evenLat)
  }

  /** Longitude of the selected frame, before normalisation. */
  function RawLongitude(nl: int, evenLon: int, oddLon: int, odd: bool, surface: bool): real
    requires nl >= 1
  {
    var m := ZoneIndex(evenLon, oddLon, nl);
    PairCoordinate(m, ZonesForParity(nl, odd), LongitudeZoneSize(nl, odd, surface), if odd then oddLon else evenLon)
  }

  /** Decode a pair of airborne frames; `fflag` selects the odd one as authoritative. */
  function DecodeAirborne(evenLat: nat, evenLon: nat, oddLat: nat, oddLon: nat, fflag: bool): Option<Position>
  {
    var rlat0 := WrapLatitude(RawLatitude(evenLat, oddLat, false, false));
    var rlat1 := WrapLatitude(RawLatitude(evenLat, oddLat, true, false));
    if !LatitudeInRange(rlat0) || !LatitudeInRange(rlat1) then None
    else if LongitudeZones(rlat0) != LongitudeZones(rlat1) then None
    else
      var rlat := if fflag then rlat1 else rlat0;
      Some(Position(rlat, WrapLongitude(RawLongitude(LongitudeZones(rlat), evenLon, oddLon, fflag, false))))
  }

  /** Resolve the 90-degree ambiguity of a surface latitude towards the reference. */
  function SurfaceLatitude(rlat: real, reflat: real): real
  {
    if rlat == 0.0 then
      if reflat < -45.0 then -90.0 else if reflat > 45.0 then 90.0 else rlat
    else if rlat - reflat > 45.0 then rlat - 90.0
    else rlat
  }

  /** The copy of `lon`, modulo 90 degrees, nearest the reference. */
  function NearestQuarter(lon: real, reflon: real): real
  {
    lon + ((reflon - lon + 45.0) / 90.0).Floor as real * 90.0
  }

  /** Decode a pair of surface frames given a reference position. */
  function DecodeSurface(ref: Position, evenLat: nat, evenLon: nat, oddLat: nat, oddLon: nat, fflag: bool)
    : Option<Position>
  {
    var rlat0 := SurfaceLatitude(RawLatitude(evenLat, oddLat, false, true), ref.lat);
    var rlat1 := SurfaceLatitude(RawLatitude(evenLat, oddLat, true, true), ref.lat);
    if !LatitudeInRange(rlat0) || !LatitudeInRange(rlat1) then None
    else if LongitudeZones(rlat0) != LongitudeZones(rlat1) then None
    else
      var rlat := if fflag then rlat1 else rlat0;
      var rlon := RawLongitude(LongitudeZones(rlat), evenLon, oddLon, fflag, true);
      Some(Position(rlat, WrapLongitude(NearestQuarter(rlon, ref.lon))))
  }

  /** The zone nearest the reference, then the fraction within it. */
  function NearestInZones(ref: real, size: real, fraction: real): real
    requires size > 0.0
  {
    var zone := (ref / size).Floor + (0.5 + CprModReal(ref, size) / size - fraction).Floor;
    size * (zone as real + fraction)
  }

  function RealAbs(x: real): real { if x < 0.0 then -x else x }

  /** Decode a single frame given a nearby reference position. */
  function DecodeRelative(ref: Position, cprLat: nat, cprLon: nat, fflag: bool, surface: bool): Option<Position>
  {
    var fractionalLat := cprLat as real / 131072.0;
    var fractionalLon := cprLon as real / 131072.0;
    var dlat := (if surface then 90.0 else 360.0) / (if fflag then 59.0 else 60.0);
    var rlat := WrapLatitude(NearestInZones(ref.lat, dlat, fractionalLat));
    if !LatitudeInRange(rlat) then None
    else if RealAbs(rlat - ref.lat) > dlat / 2.0 then None
    else
      var dlon := LongitudeZoneSize(LongitudeZones(rlat), fflag, surface);
      var rlon := WrapLongitude(NearestInZones(ref.lon, dlon, fractionalLon));
      // The Euclidean remainder of the shifted difference, shifted back.
      var deltaLon := WrapLongitude(rlon - ref.lon);
      if RealAbs(deltaLon) > dlon / 2.0 then None else Some(Position(rlat, rlon))
  }

  // ---------------------------------------------------------------------
  // The encoder of DO-260B A.1.7.3.  MOD(x, D)/D is the fraction of x/D, so
  // YZ = floor(2^17 MOD(x, D)/D + 1/2) depends only on x in units of zones.
  // ---------------------------------------------------------------------

  function RoundedFraction(zones: real): int
  {
    (131072.0 * (zones - zones.Floor as real) + 0.5).Floor
  }

  /** The 17 transmitted bits of a coordinate given in zones. */
  function Encode(zones: real): (bits: nat)
    ensures bits < QUANTA
  {
    RoundedFraction(zones) % QUANTA
  }

  /** The coordinate, in zones, that the rounded value stands for: YZ/2^17 + floor(x/D). */
  function Quantised(zones: real): real
  {
    RoundedFraction(zones) as real / 131072.0 + zones.Floor as real
  }

  /** The nearest whole number of quanta, counted over every zone. */
  function TotalQuanta(zones: real): int
  {
    (131072.0 * zones + 0.5).Floor
  }

  /** Rounding within a zone is one rounding on the whole circle. */
  lemma EncodeIsGlobalRounding(zones: real)
    ensures Encode(zones) == TotalQuanta(zones) % QUANTA
    ensures Quantised(zones) == TotalQuanta(zones) as real / 131072.0
  {
    var f := zones.Floor;
    FloorShift(131072.0 * zones + 0.5, -131072 * f);
    assert RoundedFraction(zones) == TotalQuanta(zones) + QUANTA * (-f);
    DivModShift(TotalQuanta(zones), QUANTA, -f);
  }

  /** Rounding moves a coordinate by at most half a quantum. */
  lemma QuantisedIsNear(zones: real)
    ensures RealAbs(Quantised(zones) - zones) <= 1.0 / 262144.0
  {
    EncodeIsGlobalRounding(zones);
  }

  // ---------------------------------------------------------------------
  // The Chinese-remainder step
  // ---------------------------------------------------------------------

  lemma CrossIdentity(r: real, b: real, w: real, even: real, odd: real, e0: real, e1: real)
    requires even == r * w + e0 && odd == b * w + e1
    ensures b * even - r * odd == b * e0 - r * e1
  {
    assert b * even == b * (r * w) + b * e0 by { Distribute(b, r * w, e0); }
    assert r * odd == r * (b * w) + r * e1 by { Distribute(r, b * w, e1); }
    assert b * (r * w) == r * (b * w);
  }

  lemma CrossBound(r: real, b: real, e0: real, e1: real)
    requires 0.0 <= b <= 59.0 && 0.0 <= r <= 60.0 && -0.5 <= e0 <= 0.5 && -0.5 <= e1 <= 0.5
    ensures -60.0 < b * e0 - r * e1 < 60.0
  {
    HalfWithin(b, e0, b * e0, 59.0);
    HalfWithin(r, e1, r * e1, 60.0);
  }

  /** Two roundings of the same angle on grids of `a` and `a - 1` zones barely disagree. */
  lemma CrossDifferenceIsSmall(w: real, a: int, even: int, odd: int)
    requires 1 <= a <= 60
    requires even == (a as real * w + 0.5).Floor && odd == ((a - 1) as real * w + 0.5).Floor
    ensures -65536 < (a - 1) * even - a * odd < 65536
  {
    var r, b := a as real, (a - 1) as real;
    var e0, e1 := even as real - r * w, odd as real - b * w;
    var difference := b * even as real - r * odd as real;
    assert -60.0 < difference < 60.0 by {
      CrossIdentity(r, b, w, even as real, odd as real, e0, e1);
      CrossBound(r, b, e0, e1);
    }
    assert ((a - 1) * even - a * odd) as real == difference by {
      RealProduct(a - 1, even);
      RealProduct(a, odd);
    }
  }

  /** By how many zones the zone index of two frames misses the one of a single position. */
  function ZoneOffset(a: int, even: int, odd: int): int
  {
    (((a - 1) * even - a * odd) as real / 131072.0 + 0.5).Floor
  }

  /** The two frames' total quanta lie within the window of one zone index. */
  predicate Together(a: int, even: int, odd: int)
  {
    -65536 <= (a - 1) * even - a * odd < 65536
  }

  /** The zone index of any two frames, and exactly when it relates their whole-zone parts. */
  lemma ZoneIndexOfAny(a: int, even: int, odd: int)
    ensures ZoneIndex(even % QUANTA, odd % QUANTA, a)
         == a * (odd / QUANTA) - (a - 1) * (even / QUANTA) + ZoneOffset(a, even, odd)
    ensures ZoneOffset(a, even, odd) == 0 <==> Together(a, even, odd)
  {
    var k0, k1, y0, y1 := even / QUANTA, odd / QUANTA, even % QUANTA, odd % QUANTA;
    var j := a * k1 - (a - 1) * k0;
    var cross := (a - 1) * even - a * odd;
    assert (a - 1) * y0 - a * y1 == cross + QUANTA * j by {
      assert (a - 1) * even == (a - 1) * (QUANTA * k0) + (a - 1) * y0;
      assert a * odd == a * (QUANTA * k1) + a * y1;
    }
    FloorShift(cross as real / 131072.0 + 0.5, j);
  }

  /** The zone index relates the whole-zone parts of the two roundings. */
  lemma ZoneIndexRecoversZones(w: real, a: int, even: int, odd: int)
    requires 1 <= a <= 60
    requires even == (a as real * w + 0.5).Floor && odd == ((a - 1) as real * w + 0.5).Floor
    ensures ZoneIndex(even % QUANTA, odd % QUANTA, a) == a * (odd / QUANTA) - (a - 1) * (even / QUANTA)
  {
    CrossDifferenceIsSmall(w, a, even, odd);
    ZoneIndexOfAny(a, even, odd);
  }

  lemma ShiftedModulo(k: int, b: int, t: int, m: int)
    requires b > 0 && m == k + b * t
    ensures m % b == k % b
  {
    DivModShift(k, b, t);
  }

  lemma ZoneIndexIdentity(a: int, k0: int, k1: int)
    ensures a * k1 - (a - 1) * k0 == k0 + a * (k1 - k0)
    ensures a * k1 - (a - 1) * k0 == k1 + (a - 1) * (k1 - k0)
  {
  }

  /** Modulo either zone count, the zone index is that frame's own zone. */
  lemma RecoverZone(w: real, a: int, even: int, odd: int, m: int)
    requires 2 <= a <= 60 && m == ZoneIndex(even % QUANTA, odd % QUANTA, a)
    requires even == (a as real * w + 0.5).Floor && odd == ((a - 1) as real * w + 0.5).Floor
    ensures m % a == even / QUANTA % a && m % (a - 1) == odd / QUANTA % (a - 1)
  {
    var k0, k1 := even / QUANTA, odd / QUANTA;
    assert m == k0 + a * (k1 - k0) && m == k1 + (a - 1) * (k1 - k0) by {
      ZoneIndexRecoversZones(w, a, even, odd);
      ZoneIndexIdentity(a, k0, k1);
    }
    assert m % a == k0 % a by { ShiftedModulo(k0, a, k1 - k0, m); }
    assert m % (a - 1) == k1 % (a - 1) by { ShiftedModulo(k1, a - 1, k1 - k0, m); }
  }

  /**
   One coordinate at `turns` of the grid's span, sent on grids of `a` and
   `a - 1` zones (at least one): the zone index, reduced modulo either count,
   is that frame's own zone.
   */
  lemma RecoverBothZones(turns: real, a: int, x0: real, x1: real)
    requires 1 <= a <= 60 && x0 == a as real * turns && x1 == ZonesForParity(a, true) as real * turns
    ensures var m := ZoneIndex(Encode(x0), Encode(x1), a);
      m % a == TotalQuanta(x0) / QUANTA % a
      && m % ZonesForParity(a, true) == TotalQuanta(x1) / QUANTA % ZonesForParity(a, true)
  {
    var n0, n1 := TotalQuanta(x0), TotalQuanta(x1);
    EncodeIsGlobalRounding(x0);
    EncodeIsGlobalRounding(x1);
    if a >= 2 {
      var w := 131072.0 * turns;
      assert n0 == (a as real * w + 0.5).Floor;
      assert n1 == ((a - 1) as real * w + 0.5).Floor;
      RecoverZone(w, a, n0, n1, ZoneIndex(n0 % QUANTA, n1 % QUANTA, a));
    }
  }

  /** The whole spans by which a recovered coordinate may differ from the encoded one. */
  function Turns(zones: real, count: int): int
    requires count >= 1
  {
    TotalQuanta(zones) / QUANTA / count
  }

  /** A frame's zone known modulo `count` gives its position up to whole spans. */
  lemma PlaceInZone(zones: real, count: int, zone: int)
    requires count >= 1 && zone == TotalQuanta(zones) / QUANTA % count
    ensures zone as real + Encode(zones) as real / 131072.0
        == Quantised(zones) - count as real * Turns(zones, count) as real
  {
    EncodeIsGlobalRounding(zones);
    var k, t := TotalQuanta(zones) / QUANTA, Turns(zones, count);
    assert k == count * t + zone;
    assert (count * t) as real == count as real * t as real;
  }

  lemma SpanOfZones(size: real, n: int, span: real, zone: int, bits: int, quantised: real, t: int)
    requires size * n as real == span
    requires zone as real + bits as real / 131072.0 == quantised - n as real * t as real
    ensures size * (zone as real + bits as real / 131072.0) == size * quantised - span * t as real
  {
  }

  /** What the decoder computes for a frame whose zone was recovered. */
  lemma PairPlaced(index: int, zones: real, n: int, size: real, span: real)
    requires n >= 1 && size * n as real == span
    requires index % n == TotalQuanta(zones) / QUANTA % n
    ensures PairCoordinate(index, n, size, Encode(zones)) == size * Quantised(zones) - span * Turns(zones, n) as real
  {
    PlaceInZone(zones, n, index % n);
    SpanOfZones(size, n, span, index % n, Encode(zones), Quantised(zones), Turns(zones, n));
  }

  // ---------------------------------------------------------------------
  // Positions on the grids
  // ---------------------------------------------------------------------

  /** A coordinate in units of the zones of a grid of `n` zones: x/D with D = span/n. */
  function InZones(x: real, n: int, surface: bool): real
  {
    n as real * (x / Span(surface))
  }

  lemma InZonesIsQuotient(x: real, n: int, surface: bool)
    requires n >= 1
    ensures InZones(x, n, surface) == x / (Span(surface) / n as real)
  {
    var d := Span(surface) / n as real;
    assert d * n as real == Span(surface);
    assert InZones(x, n, surface) * d == x;
  }

  function LatitudeZonesForParity(odd: bool): int { if odd then 59 else 60 }

  /** The latitude one frame stands for. */
  function QuantisedLatitude(lat: real, odd: bool, surface: bool): real
  {
    Span(surface) / (if odd then 59.0 else 60.0) * Quantised(InZones(lat, LatitudeZonesForParity(odd), surface))
  }

  /** The longitude zones, chosen by the latitude the transmitted bits stand for. */
  function GridZones(lat: real, odd: bool, surface: bool): (nl: int)
    ensures 1 <= nl <= 59
  {
    LongitudeZones(QuantisedLatitude(lat, odd, surface))
  }

  function EncodeLatitude(p: Position, odd: bool, surface: bool): (bits: nat)
    ensures bits < QUANTA
  {
    Encode(InZones(p.lat, LatitudeZonesForParity(odd), surface))
  }

  function EncodeLongitude(p: Position, odd: bool, surface: bool): (bits: nat)
    ensures bits < QUANTA
  {
    Encode(InZones(p.lon, ZonesForParity(GridZones(p.lat, odd, surface), odd), surface))
  }

  /** The bits of a coordinate `part` of a zone into zone number `zone`, of `n` around the globe. */
  lemma BitsByStandard(x: real, n: int, surface: bool, zone: int, part: real)
    requires n >= 1 && 0.0 <= part < 1.0
    requires x * n as real == (if surface then 90.0 else 360.0) * (zone as real + part)
    ensures Encode(InZones(x, n, surface)) == (131072.0 * part + 0.5).Floor % 131072
  {
    var span := Span(surface);
    var zones := InZones(x, n, surface);
    assert span * zones == x * n as real by {
      Quotient(x, span);
      Reordered(span, n as real, x / span);
    }
    assert zones == zone as real + part;
    assert zones.Floor == zone;
  }

  lemma Reordered(a: real, b: real, c: real)
    ensures a * (b * c) == a * c * b
  {
  }

  /**
   Sixty zones of latitude in an even frame and fifty-nine in an odd one, as many of longitude
   as the latitude has or one less but at least one, and 2^17 steps in each.
   */
  lemma FrameByStandard(p: Position, odd: bool, surface: bool, nl: int, zone: int, part: real, zone': int, part': real)
    requires 0.0 <= part < 1.0 && 0.0 <= part' < 1.0 && nl == GridZones(p.lat, odd, surface)
    requires p.lat * (if odd then 59.0 else 60.0) == (if surface then 90.0 else 360.0) * (zone as real + part)
    requires p.lon * (if odd && nl > 1 then nl - 1 else nl) as real
          == (if surface then 90.0 else 360.0) * (zone' as real + part')
    ensures EncodeLatitude(p, odd, surface) == (131072.0 * part + 0.5).Floor % 131072
    ensures EncodeLongitude(p, odd, surface) == (131072.0 * part' + 0.5).Floor % 131072
  {
    BitsByStandard(p.lat, LatitudeZonesForParity(odd), surface, zone, part);
    BitsByStandard(p.lon, ZonesForParity(nl, odd), surface, zone', part');
  }

  /** The longitude one frame stands for, before normalisation, on a grid of `nl` even zones. */
  function QuantisedLongitude(lon: real, nl: int, odd: bool, surface: bool): real
    requires nl >= 1
  {
    LongitudeZoneSize(nl, odd, surface) * Quantised(InZones(lon, ZonesForParity(nl, odd), surface))
  }

  /** The position one frame stands for, with the longitude in [-180, 180). */
  function QuantisedPosition(p: Position, odd: bool, surface: bool): Position
  {
    Position(
      QuantisedLatitude(p.lat, odd, surface),
      WrapLongitude(QuantisedLongitude(p.lon, GridZones(p.lat, odd, surface), odd, surface)))
  }

  /** Whether the two frames of a position agree on the number of longitude zones. */
  predicate SameZones(p: Position, surface: bool)
  {
    GridZones(p.lat, false, surface) == GridZones(p.lat, true, surface)
  }

  lemma QuantisedBounded(zones: real, quanta: int)
    requires -quanta as real <= 131072.0 * zones <= quanta as real
    ensures -quanta as real / 131072.0 <= Quantised(zones) <= quanta as real / 131072.0
  {
    EncodeIsGlobalRounding(zones);
    assert -quanta <= TotalQuanta(zones) <= quanta;
  }

  lemma QuantisedLatitudeInRange(lat: real, odd: bool, surface: bool)
    requires LatitudeInRange(lat)
    ensures LatitudeInRange(QuantisedLatitude(lat, odd, surface))
  {
    if surface && odd {
      QuantisedBounded(59.0 * (lat / 90.0), 59 * QUANTA);
    } else if surface {
      QuantisedBounded(60.0 * (lat / 90.0), 60 * QUANTA);
    } else if odd {
      QuantisedBounded(59.0 * (lat / 360.0), 59 * QUANTA / 4);
    } else {
      QuantisedBounded(60.0 * (lat / 360.0), 15 * QUANTA);
    }
  }

  lemma LatitudeIndex(lat: real, surface: bool, x0: real, x1: real)
    requires x0 == InZones(lat, 60, surface) && x1 == InZones(lat, 59, surface)
    ensures var j := ZoneIndex(Encode(x0), Encode(x1), 60);
      j % 60 == TotalQuanta(x0) / QUANTA % 60 && j % 59 == TotalQuanta(x1) / QUANTA % 59
  {
    RecoverBothZones(lat / Span(surface), 60, x0, x1);
  }

  lemma PlacedLatitude(odd: bool, surface: bool, n: int, e0: int, e1: int, m: int, x: real)
    requires n == LatitudeZonesForParity(odd) && m == ZoneIndex(e0, e1, 60)
    requires Encode(x) == if odd then e1 else e0
    requires m % n == TotalQuanta(x) / QUANTA % n
    ensures RawLatitude(e0, e1, odd, surface)
         == Span(surface) / (if odd then 59.0 else 60.0) * Quantised(x) - Span(surface) * Turns(x, n) as real
  {
    if odd {
      PairPlaced(m, x, 59, Span(surface) / 59.0, Span(surface));
    } else {
      PairPlaced(m, x, 60, Span(surface) / 60.0, Span(surface));
    }
  }

  /** The pair of latitudes decodes to what either frame stands for, less whole spans. */
  lemma PairLatitude(p: Position, odd: bool, surface: bool) returns (t: int)
    ensures RawLatitude(EncodeLatitude(p, false, surface), EncodeLatitude(p, true, surface), odd, surface)
         == QuantisedLatitude(p.lat, odd, surface) - Span(surface) * t as real
  {
    var x0, x1 := InZones(p.lat, 60, surface), InZones(p.lat, 59, surface);
    var x, n := if odd then x1 else x0, LatitudeZonesForParity(odd);
    LatitudeIndex(p.lat, surface, x0, x1);
    PlacedLatitude(odd, surface, n, Encode(x0), Encode(x1), ZoneIndex(Encode(x0), Encode(x1), 60), x);
    t := Turns(x, n);
  }

  lemma QuantisedLongitudeOf(lon: real, nl: int, n: int, odd: bool, surface: bool, x: real, d: real)
    requires nl >= 1 && n == ZonesForParity(nl, odd) && d == LongitudeZoneSize(nl, odd, surface)
    requires x == InZones(lon, n, surface)
    ensures QuantisedLongitude(lon, nl, odd, surface) == d * Quantised(x)
  {
  }

  lemma RawLongitudeOf(nl: int, n: int, odd: bool, surface: bool, e0: int, e1: int, e: int, m: int, d: real)
    requires nl >= 1 && n == ZonesForParity(nl, odd) && d == LongitudeZoneSize(nl, odd, surface)
    requires m == ZoneIndex(e0, e1, nl) && e == if odd then e1 else e0
    ensures RawLongitude(nl, e0, e1, odd, surface) == PairCoordinate(m, n, d, e)
  {
  }

  /** The longitude zone index, reduced modulo the selected frame's zone count, is that frame's zone. */
  lemma LongitudeIndex(lon: real, nl: int, odd: bool, surface: bool, x0: real, x1: real)
    requires 1 <= nl <= 59
    requires x0 == InZones(lon, nl, surface) && x1 == InZones(lon, ZonesForParity(nl, true), surface)
    ensures ZoneIndex(Encode(x0), Encode(x1), nl) % ZonesForParity(nl, odd)
         == TotalQuanta(if odd then x1 else x0) / QUANTA % ZonesForParity(nl, odd)
  {
    RecoverBothZones(lon / Span(surface), nl, x0, x1);
  }

  lemma PlacedLongitude(
      nl: int, n: int, odd: bool, surface: bool, e0: int, e1: int, m: int, x: real, d: real, span: real)
    requires nl >= 1 && n == ZonesForParity(nl, odd) && d == LongitudeZoneSize(nl, odd, surface)
    requires span == Span(surface)
    requires m == ZoneIndex(e0, e1, nl) && Encode(x) == if odd then e1 else e0
    requires m % n == TotalQuanta(x) / QUANTA % n
    ensures RawLongitude(nl, e0, e1, odd, surface) == d * Quantised(x) - span * Turns(x, n) as real
  {
    assert PairCoordinate(m, n, d, Encode(x)) == d * Quantised(x) - span * Turns(x, n) as real by {
      assert d * n as real == span;
      PairPlaced(m, x, n, d, span);
    }
    assert RawLongitude(nl, e0, e1, odd, surface) == PairCoordinate(m, n, d, Encode(x)) by {
      RawLongitudeOf(nl, n, odd, surface, e0, e1, Encode(x), m, d);
    }
  }

  /** The pair of longitudes decodes to what the selected frame stands for, less whole spans. */
  lemma PairLongitude(lon: real, nl: int, n: int, odd: bool, surface: bool, x0: real, x1: real, x: real, d: real)
    requires 1 <= nl <= 59 && n == ZonesForParity(nl, odd) && d == LongitudeZoneSize(nl, odd, surface)
    requires x0 == InZones(lon, nl, surface) && x1 == InZones(lon, ZonesForParity(nl, true), surface)
    requires x == if odd then x1 else x0
    ensures RawLongitude(nl, Encode(x0), Encode(x1), odd, surface)
        == d * Quantised(x) - Span(surface) * Turns(x, n) as real
  {
    LongitudeIndex(lon, nl, odd, surface, x0, x1);
    PlacedLongitude(nl, n, odd, surface, Encode(x0), Encode(x1), ZoneIndex(Encode(x0), Encode(x1), nl), x, d,
                    Span(surface));
  }

  // ---------------------------------------------------------------------
  // Round trips
  // ---------------------------------------------------------------------

  lemma WrapIgnoresTurns(x: real, t: int)
    ensures WrapLongitude(x - 360.0 * t as real) == WrapLongitude(x)
  {
    FloorShift((x + 180.0) / 360.0, -t);
  }

  lemma WrapLatitudeUnique(raw: real, lat: real, t: int)
    requires LatitudeInRange(lat) && 0.0 <= raw < 360.0 && raw == lat - 360.0 * t as real
    ensures WrapLatitude(raw) == lat
  {
    assert -1 <= t <= 0;
  }

  lemma RawLatitudeInSpan(evenLat: int, oddLat: int, odd: bool, surface: bool)
    requires 0 <= evenLat < QUANTA && 0 <= oddLat < QUANTA
    ensures 0.0 <= RawLatitude(evenLat, oddLat, odd, surface) < Span(surface)
  {
  }

  lemma AirborneLatitude(p: Position, e0: int, e1: int, odd: bool)
    requires LatitudeInRange(p.lat)
    requires e0 == EncodeLatitude(p, false, false) && e1 == EncodeLatitude(p, true, false)
    ensures LatitudeInRange(QuantisedLatitude(p.lat, odd, false))
    ensures WrapLatitude(RawLatitude(e0, e1, odd, false)) == QuantisedLatitude(p.lat, odd, false)
  {
    var t := PairLatitude(p, odd, false);
    QuantisedLatitudeInRange(p.lat, odd, false);
    RawLatitudeInSpan(e0, e1, odd, false);
    WrapLatitudeUnique(RawLatitude(e0, e1, odd, false), QuantisedLatitude(p.lat, odd, false), t);
  }

  lemma AirborneLongitude(lon: real, nl: int, fflag: bool)
    requires 1 <= nl <= 59
    ensures WrapLongitude(RawLongitude(nl, Encode(InZones(lon, nl, false)),
                                       Encode(InZones(lon, ZonesForParity(nl, true), false)), fflag, false))
         == WrapLongitude(QuantisedLongitude(lon, nl, fflag, false))
  {
    var x0, x1 := InZones(lon, nl, false), InZones(lon, ZonesForParity(nl, true), false);
    var x := if fflag then x1 else x0;
    var n, d := ZonesForParity(nl, fflag), LongitudeZoneSize(nl, fflag, false);
    PairLongitude(lon, nl, n, fflag, false, x0, x1, x, d);
    QuantisedLongitudeOf(lon, nl, n, fflag, false, x, d);
    WrapIgnoresTurns(d * Quantised(x), Turns(x, n));
  }

  /**
   Airborne global decoding inverts the encoder for every position: it answers
   exactly when both frames lie in the same zone count, and then with the very
   point the authoritative frame stands for.
   */
  lemma AirborneRoundTrip(p: Position, fflag: bool)
    requires LatitudeInRange(p.lat)
    ensures DecodeAirborne(EncodeLatitude(p, false, false), EncodeLongitude(p, false, false),
                           EncodeLatitude(p, true, false), EncodeLongitude(p, true, false), fflag)
         == if SameZones(p, false) then Some(QuantisedPosition(p, fflag, false)) else None
  {
    AirborneLatitude(p, EncodeLatitude(p, false, false), EncodeLatitude(p, true, false), false);
    AirborneLatitude(p, EncodeLatitude(p, false, false), EncodeLatitude(p, true, false), true);
    if SameZones(p, false) {
      AirborneLongitude(p.lon, GridZones(p.lat, fflag, false), fflag);
    }
  }

  /** A rounded coordinate is within half a quantum of the original, on any grid. */
  lemma RoundingError(x: real, n: int, d: real, surface: bool)
    requires n >= 1 && d > 0.0 && d * n as real == Span(surface)
    ensures RealAbs(d * Quantised(InZones(x, n, surface)) - x) <= d / 262144.0
  {
    var z := InZones(x, n, surface);
    QuantisedIsNear(z);
    ScaledDifference(d, z, Quantised(z));
    assert d * z == x by { assert d * z == (d * n as real) * (x / Span(surface)); }
  }

  lemma ScaledDifference(d: real, z: real, q: real)
    requires d > 0.0 && RealAbs(q - z) <= 1.0 / 262144.0
    ensures RealAbs(d * q - d * z) <= d / 262144.0
  {
    var e := q - z;
    assert d * (1.0 / 262144.0 - e) >= 0.0 && d * (1.0 / 262144.0 + e) >= 0.0;
    assert d * (1.0 / 262144.0) == d / 262144.0;
    assert d * q - d * z == d * e;
  }

  lemma LongitudeError(lon: real, nl: int, odd: bool, surface: bool)
    requires nl >= 1
    ensures RealAbs(QuantisedLongitude(lon, nl, odd, surface) - lon) <= LongitudeZoneSize(nl, odd, surface) / 262144.0
  {
    RoundingError(lon, ZonesForParity(nl, odd), LongitudeZoneSize(nl, odd, surface), surface);
  }

  lemma LatitudeError(lat: real, odd: bool)
    ensures RealAbs(QuantisedLatitude(lat, odd, false) - lat) <= (if odd then 360.0 / 59.0 else 6.0) / 262144.0
  {
    RoundingError(lat, LatitudeZonesForParity(odd), if odd then 360.0 / 59.0 else 6.0, false);
  }

  lemma WrapCountsTurns(x: real) returns (t: int)
    ensures x == WrapLongitude(x) + 360.0 * t as real
  {
    t := ((x + 180.0) / 360.0).Floor;
  }

  /** Every airborne answer is the encoded position to within half a quantum, `t` turns aside. */
  lemma AirborneAccuracy(p: Position, fflag: bool, r: Position) returns (t: int)
    requires LatitudeInRange(p.lat)
    requires DecodeAirborne(EncodeLatitude(p, false, false), EncodeLongitude(p, false, false),
                            EncodeLatitude(p, true, false), EncodeLongitude(p, true, false), fflag) == Some(r)
    ensures RealAbs(r.lat - p.lat) <= (if fflag then 360.0 / 59.0 else 6.0) / 262144.0
    ensures -180.0 <= r.lon < 180.0
    ensures RealAbs(r.lon + 360.0 * t as real - p.lon)
         <= LongitudeZoneSize(GridZones(p.lat, fflag, false), fflag, false) / 262144.0
  {
    AirborneRoundTrip(p, fflag);
    LatitudeError(p.lat, fflag);
    LongitudeError(p.lon, GridZones(p.lat, fflag, false), fflag, false);
    t := WrapCountsTurns(QuantisedLongitude(p.lon, GridZones(p.lat, fflag, false), fflag, false));
  }
}
