/** Decoding near a reference position: surface pairs and single frames. */
module CprReference {
  import opened Wrappers
  import opened Arith
  import opened Cpr
  import opened CprMoving

  // ---------------------------------------------------------------------
  // Surface pairs
  // ---------------------------------------------------------------------

  /**
   DO-260B A.1.7.3 sends surface positions on the 360-degree grid with 2^19
   quanta a zone, keeping the low 17 bits; that is the 90-degree grid used here.
   */
  lemma SurfaceBits(x: real, n: int)
    requires n >= 1
    ensures var zones := InZones(x, n, false);
      (524288.0 * (zones - zones.Floor as real) + 0.5).Floor % QUANTA == Encode(InZones(x, n, true))
  {
    var zones := InZones(x, n, false);
    var total := TotalQuanta(InZones(x, n, true));
    assert InZones(x, n, true) == 4.0 * zones by { QuarterZones(x, n); }
    EncodeIsGlobalRounding(4.0 * zones);
    FloorShift(524288.0 * zones + 0.5, -524288 * zones.Floor);
    DivModShift(total, QUANTA, -4 * zones.Floor);
  }

  lemma QuarterZones(x: real, n: int)
    ensures InZones(x, n, true) == 4.0 * InZones(x, n, false)
  {
    assert n as real * (x / 90.0) == 4.0 * (n as real * (x / 360.0)) by {
      var y := x / 360.0;
      assert x / 90.0 == 4.0 * y;
    }
  }

  /** The references from which a latitude is told apart from the others of its 90-degree grid. */
  predicate Resolvable(lat: real, reflat: real)
  {
    if lat == 0.0 then -45.0 <= reflat <= 45.0
    else if lat == 90.0 then reflat > 45.0
    else if lat == -90.0 then reflat < -45.0
    else if lat > 0.0 then lat - reflat <= 45.0
    else reflat - lat < 45.0
  }

  /** What a latitude known only up to 90 degrees is taken for. */
  function Resolved(lat: real, reflat: real): real
  {
    SurfaceLatitude(lat - 90.0 * (lat / 90.0).Floor as real, reflat)
  }

  lemma ResolvedIffResolvable(lat: real, reflat: real)
    requires LatitudeInRange(lat)
    ensures LatitudeInRange(Resolved(lat, reflat))
    ensures Resolved(lat, reflat) == lat <==> Resolvable(lat, reflat)
  {
    var t := (lat / 90.0).Floor;
    assert -1 <= t <= 1;
  }

  lemma SurfacePairLatitude(p: Position, e0: int, e1: int, odd: bool, reflat: real)
    requires LatitudeInRange(p.lat)
    requires e0 == EncodeLatitude(p, false, true) && e1 == EncodeLatitude(p, true, true)
    ensures LatitudeInRange(QuantisedLatitude(p.lat, odd, true))
    ensures SurfaceLatitude(RawLatitude(e0, e1, odd, true), reflat)
        == Resolved(QuantisedLatitude(p.lat, odd, true), reflat)
  {
    var t := PairLatitude(p, odd, true);
    QuantisedLatitudeInRange(p.lat, odd, true);
    RawLatitudeInSpan(e0, e1, odd, true);
    FloorIs(QuantisedLatitude(p.lat, odd, true) / 90.0, t);
  }

  lemma FloorIs(x: real, t: int)
    requires t as real <= x < t as real + 1.0
    ensures x.Floor == t
  {
  }

  /** The nearest quarter recovers a longitude exactly when it is within 45 degrees of the reference. */
  lemma NearestQuarterRecovers(raw: real, lon: real, reflon: real, t: int)
    requires raw == lon - 90.0 * t as real
    ensures WrapLongitude(NearestQuarter(raw, reflon)) == WrapLongitude(lon)
       <==> -45.0 < WrapLongitude(lon - reflon) <= 45.0
  {
    var near := NearestQuarter(raw, reflon);
    var s := WrapCountsTurns(lon - reflon);
    var away := WrapLongitude(lon - reflon);
    assert -45.0 < near - reflon <= 45.0;
    if -45.0 < away <= 45.0 {
      FloorShift((45.0 - away) / 90.0, t - 4 * s);
      assert near == lon - 360.0 * s as real;
      WrapIgnoresTurns(lon, s);
    }
    if WrapLongitude(near) == WrapLongitude(lon) {
      var a := WrapCountsTurns(near);
      var b := WrapCountsTurns(lon);
      assert lon - reflon == near - reflon - 360.0 * (a - b) as real;
      WrapIgnoresTurns(near - reflon, a - b);
    }
  }

  /** A surface longitude is recovered exactly when its zone is its own and it is near the reference. */
  lemma SurfaceLongitudePlaced(
    nl: int, odd: bool, e0: int, e1: int, x: real, n: int, d: real, zone: int, own: int, raw: real, right: real,
    reflon: real)
    requires 1 <= nl <= 59 && n == ZonesForParity(nl, odd) && d == LongitudeZoneSize(nl, odd, true)
    requires Encode(x) == if odd then e1 else e0
    requires zone == ZoneIndex(e0, e1, nl) % n && own == TotalQuanta(x) / QUANTA % n
    requires raw == RawLongitude(nl, e0, e1, odd, true) && right == d * Quantised(x)
    ensures WrapLongitude(NearestQuarter(raw, reflon)) == WrapLongitude(right)
       <==> zone == own && -45.0 < WrapLongitude(right - reflon) <= 45.0
  {
    RawLongitudeAt(nl, n, odd, true, e0, e1, Encode(x), ZoneIndex(e0, e1, nl), d, zone);
    PlacedSomewhere(90.0, d, n, zone, own, x, Turns(x, n), raw, right);
    QuarterPlaced(d, n, zone, own, raw, right, Turns(x, n), reflon);
  }

  lemma QuarterPlaced(d: real, n: int, zone: int, own: int, raw: real, right: real, t: int, reflon: real)
    requires n >= 1 && d > 0.0 && d * n as real == 90.0 && 0 <= zone < n && 0 <= own < n
    requires raw - (right - 90.0 * t as real) == d * (zone - own) as real
    ensures WrapLongitude(NearestQuarter(raw, reflon)) == WrapLongitude(right)
       <==> zone == own && -45.0 < WrapLongitude(right - reflon) <= 45.0
  {
    if zone == own {
      NearestQuarterRecovers(raw, right, reflon, t);
    } else {
      var near := NearestQuarter(raw, reflon);
      var t1 := WrapCountsTurns(near);
      var t2 := WrapCountsTurns(right);
      if WrapLongitude(near) == WrapLongitude(right) {
        var k := ((reflon - raw + 45.0) / 90.0).Floor;
        WholeSpans(90.0, d, n, zone - own, t - k + 4 * (t1 - t2));
      }
    }
  }

  /** The longitudes of the two frames of one position, each on the grid that its own latitude chose. */
  function SurfaceZones(p: Position, odd: bool): real
  {
    InZones(p.lon, ZonesForParity(GridZones(p.lat, odd, true), odd), true)
  }

  function SurfaceOffset(p: Position, nl: int): int
  {
    ZoneOffset(nl, TotalQuanta(SurfaceZones(p, false)), TotalQuanta(SurfaceZones(p, true)))
  }

  /** On grids of one zone count there is no offset. */
  lemma SameGridsNoOffset(p: Position, fflag: bool, nl: int)
    requires SameZones(p, true) && nl == GridZones(p.lat, fflag, true)
    ensures SurfaceOffset(p, nl) % ZonesForParity(nl, fflag) == 0
  {
    var x0, x1 := SurfaceZones(p, false), SurfaceZones(p, true);
    RecoverBothZones(p.lon / 90.0, nl, x0, x1);
    ZoneIsOwn(nl, x0, x1, fflag, if fflag then x1 else x0, ZonesForParity(nl, fflag));
  }

  lemma SurfaceLongitude(p: Position, fflag: bool, nl: int, right: real, reflon: real)
    requires nl == GridZones(p.lat, fflag, true) && right == QuantisedLongitude(p.lon, nl, fflag, true)
    ensures var raw := RawLongitude(nl, EncodeLongitude(p, false, true), EncodeLongitude(p, true, true), fflag, true);
      WrapLongitude(NearestQuarter(raw, reflon)) == WrapLongitude(right)
      <==> SurfaceOffset(p, nl) % ZonesForParity(nl, fflag) == 0 && -45.0 < WrapLongitude(right - reflon) <= 45.0
  {
    var x0, x1, n := SurfaceZones(p, false), SurfaceZones(p, true), ZonesForParity(nl, fflag);
    var x, d := if fflag then x1 else x0, LongitudeZoneSize(nl, fflag, true);
    ZoneIsOwn(nl, x0, x1, fflag, x, n);
    assert right == d * Quantised(x) by {
      QuantisedLongitudeOf(p.lon, nl, n, fflag, true, x, d);
    }
    SurfaceLongitudePlaced(nl, fflag, Encode(x0), Encode(x1), x, n, d, ZoneIndex(Encode(x0), Encode(x1), nl) % n,
                           TotalQuanta(x) / QUANTA % n, RawLongitude(nl, Encode(x0), Encode(x1), fflag,
                                       true), right, reflon);
  }

  /**
   Surface decoding against any reference: it answers exactly when the two
   latitudes, as the reference resolves them, share a zone count; with the encoded
   latitude exactly when that is resolvable; and with the encoded position exactly
   when its longitude lies within 45 degrees of the reference too and the frames'
   grids agree on its zone, which they do whenever they have the same zone count.
   */
  lemma SurfaceRoundTrip(ref: Position, p: Position, fflag: bool, r: Option<Position>)
    requires LatitudeInRange(p.lat)
    requires r == DecodeSurface(ref, EncodeLatitude(p, false, true), EncodeLongitude(p, false, true),
                                EncodeLatitude(p, true, true), EncodeLongitude(p, true, true), fflag)
    ensures r.Some? == (LongitudeZones(Resolved(QuantisedLatitude(p.lat, false, true), ref.lat))
                        == LongitudeZones(Resolved(QuantisedLatitude(p.lat, true, true), ref.lat)))
    ensures (forall odd: bool :: Resolvable(QuantisedLatitude(p.lat, odd, true), ref.lat)) ==>
              (r.Some? <==> SameZones(p, true))
    ensures var lat := QuantisedLatitude(p.lat, fflag, true);
      r.Some? ==> (r.value.lat == lat <==> Resolvable(lat, ref.lat))
    ensures var nl := GridZones(p.lat, fflag, true);
      var away := WrapLongitude(QuantisedLongitude(p.lon, nl, fflag, true) - ref.lon);
      && (SameZones(p, true) ==> SurfaceOffset(p, nl) % ZonesForParity(nl, fflag) == 0)
      && (r == Some(QuantisedPosition(p, fflag, true)) <==>
            && r.Some? && Resolvable(QuantisedLatitude(p.lat, fflag, true), ref.lat)
            && SurfaceOffset(p, nl) % ZonesForParity(nl, fflag) == 0 && -45.0 < away <= 45.0)
  {
    var nl := GridZones(p.lat, fflag, true);
    SurfacePairLatitude(p, EncodeLatitude(p, false, true), EncodeLatitude(p, true, true), false, ref.lat);
    SurfacePairLatitude(p, EncodeLatitude(p, false, true), EncodeLatitude(p, true, true), true, ref.lat);
    ResolvedIffResolvable(QuantisedLatitude(p.lat, false, true), ref.lat);
    ResolvedIffResolvable(QuantisedLatitude(p.lat, true, true), ref.lat);
    SurfaceLongitude(p, fflag, nl, QuantisedLongitude(p.lon, nl, fflag, true), ref.lon);
    if SameZones(p, true) {
      SameGridsNoOffset(p, fflag, nl);
    }
  }

  // ---------------------------------------------------------------------
  // Single frames
  // ---------------------------------------------------------------------

  lemma CprModRealIsFloored(a: real, b: real)
    requires b > 0.0
    ensures CprModReal(a, b) == a - b * (a / b).Floor as real
  {
    if a < 0.0 {
      var q := -a / b;
      assert a / b == -q;
      var k := q.Floor;
      assert -a - b * k as real >= 0.0 by { assert b * (q - k as real) >= 0.0; }
      if q == k as real {
        assert (a / b).Floor == -k;
      } else {
        assert (a / b).Floor == -k - 1;
        assert b * (q - k as real) > 0.0;
      }
    } else {
      assert b * (a / b - (a / b).Floor as real) >= 0.0;
    }
  }

  /** The decoder's two floors amount to one: the zone whose point is nearest the reference. */
  function NearestZone(ref: real, size: real, fraction: real): int
    requires size > 0.0
  {
    (ref / size + 0.5 - fraction).Floor
  }

  lemma ScaledWhole(size: real, d: int)
    requires size > 0.0 && d != 0
    ensures RealAbs(size * d as real) >= size
  {
    if d > 0 {
      assert size * (d - 1) as real >= 0.0;
    } else {
      assert size * (-1 - d) as real >= 0.0;
    }
  }

  lemma FlooredRemainderInZones(ref: real, size: real)
    requires size > 0.0
    ensures CprModReal(ref, size) / size == ref / size - (ref / size).Floor as real
  {
    var q := ref / size;
    var r := q - q.Floor as real;
    assert CprModReal(ref, size) == size * r by {
      CprModRealIsFloored(ref, size);
      Quotient(ref, size);
      Distribute(size, q, q.Floor as real);
    }
    assert size * r / size == r;
  }

  lemma NearestInZonesIsOneFloor(ref: real, size: real, fraction: real)
    requires size > 0.0
    ensures NearestInZones(ref, size, fraction) == size * (NearestZone(ref, size, fraction) as real + fraction)
  {
    var q := ref / size;
    assert CprModReal(ref, size) / size == q - q.Floor as real by { FlooredRemainderInZones(ref, size); }
    FloorShift(0.5 + q - fraction, -q.Floor);
  }

  lemma NearestZoneIsNear(ref: real, size: real, fraction: real, zone: int)
    requires size > 0.0 && zone == NearestZone(ref, size, fraction)
    ensures ref - size / 2.0 < size * (zone as real + fraction) <= ref + size / 2.0
  {
    var q := ref / size;
    Quotient(ref, size);
    ScaledPoint(size, q, zone as real + fraction, zone as real + fraction - q, ref);
  }

  lemma NearestInZonesIsNearest(ref: real, size: real, fraction: real)
    requires size > 0.0
    ensures NearestInZones(ref, size, fraction) == size * (NearestZone(ref, size, fraction) as real + fraction)
    ensures ref - size / 2.0 < NearestInZones(ref, size, fraction) <= ref + size / 2.0
  {
    NearestInZonesIsOneFloor(ref, size, fraction);
    NearestZoneIsNear(ref, size, fraction, NearestZone(ref, size, fraction));
  }

  /** A grid point is the one found exactly when it lies within half a zone of the reference, the upper end included. */
  lemma NearestInZonesFinds(ref: real, size: real, fraction: real, k: int)
    requires size > 0.0
    ensures NearestInZones(ref, size, fraction) == size * (k as real + fraction)
       <==> ref - size / 2.0 < size * (k as real + fraction) <= ref + size / 2.0
  {
    NearestInZonesIsNearest(ref, size, fraction);
    var d := NearestZone(ref, size, fraction) - k;
    assert NearestInZones(ref, size, fraction) - size * (k as real + fraction) == size * d as real;
    if d != 0 {
      ScaledWhole(size, d);
    }
  }

  /** A transmitted coordinate is a whole number of zones plus the transmitted fraction. */
  lemma QuantisedIsGridPoint(zones: real)
    ensures Quantised(zones) == (TotalQuanta(zones) / QUANTA) as real + Encode(zones) as real / 131072.0
  {
    EncodeIsGlobalRounding(zones);
  }

  lemma RelativeLatitude(lat: real, reflat: real, odd: bool, surface: bool, size: real)
    requires LatitudeInRange(lat) && size == Span(surface) / (if odd then 59.0 else 60.0)
    ensures LatitudeInRange(QuantisedLatitude(lat, odd, surface))
    ensures NearestInZones(reflat, size, Encode(InZones(lat, LatitudeZonesForParity(odd), surface)) as real / 131072.0)
         == QuantisedLatitude(lat, odd, surface)
       <==> reflat - size / 2.0 < QuantisedLatitude(lat, odd, surface) <= reflat + size / 2.0
  {
    var zones := InZones(lat, LatitudeZonesForParity(odd), surface);
    QuantisedLatitudeInRange(lat, odd, surface);
    QuantisedIsGridPoint(zones);
    NearestInZonesFinds(reflat, size, Encode(zones) as real / 131072.0, TotalQuanta(zones) / QUANTA);
  }

  /** Whole turns are whole zones: a grid point stays one when turned. */
  lemma TurnedNearest(zones: real, d: real, n: int, span: real, turn: int, s: int, reflon: real)
    requires d > 0.0 && d * n as real == span && span * turn as real == 360.0
    requires reflon - d / 2.0 < d * Quantised(zones) - 360.0 * s as real <= reflon + d / 2.0
    ensures NearestInZones(reflon, d, Encode(zones) as real / 131072.0) == d * Quantised(zones) - 360.0 * s as real
  {
    QuantisedIsGridPoint(zones);
    var k := TotalQuanta(zones) / QUANTA - n * (turn * s);
    assert (n * (turn * s)) as real == n as real * (turn * s) as real;
    var f := Encode(zones) as real / 131072.0;
    assert d * (k as real + f) == d * Quantised(zones) - 360.0 * s as real by {
      TurnedGridPoint(d, n, span, turn, s, Quantised(zones));
    }
    NearestInZonesFinds(reflon, d, f, k);
  }

  /**
   The nearest grid longitude is the encoded one, turns aside, exactly when that lies
   within half a zone of the reference.
   */
  lemma RelativeLongitude(lon: real, reflon: real, nl: int, odd: bool, surface: bool, d: real, right: real, near: real)
    requires nl >= 1 && d == LongitudeZoneSize(nl, odd, surface) && right == QuantisedLongitude(lon, nl, odd, surface)
    requires near == NearestInZones(reflon, d,
        Encode(InZones(lon, ZonesForParity(nl, odd), surface)) as real / 131072.0)
    ensures WrapLongitude(near) == WrapLongitude(right) <==> -d / 2.0 <= WrapLongitude(reflon - right) < d / 2.0
  {
    var n := ZonesForParity(nl, odd);
    var zones := InZones(lon, n, surface);
    QuantisedLongitudeOf(lon, nl, n, odd, surface, zones, d);
    LongitudeZoneAtMostTurn(nl, odd, surface);
    RelativeOnGrid(zones, d, n, surface, reflon, right, near);
  }

  lemma RelativeOnGrid(zones: real, d: real, n: int, surface: bool, reflon: real, right: real, near: real)
    requires 0.0 < d <= 360.0 && d * n as real == Span(surface) && right == d * Quantised(zones)
    requires near == NearestInZones(reflon, d, Encode(zones) as real / 131072.0)
    ensures WrapLongitude(near) == WrapLongitude(right) <==> -d / 2.0 <= WrapLongitude(reflon - right) < d / 2.0
  {
    NearestInZonesIsNearest(reflon, d, Encode(zones) as real / 131072.0);
    if -d / 2.0 <= WrapLongitude(reflon - right) < d / 2.0 {
      SameWhenNear(zones, d, n, surface, reflon, right);
    }
    if WrapLongitude(near) == WrapLongitude(right) {
      NearWhenSame(near, right, reflon, d);
    }
  }

  lemma SameWhenNear(zones: real, d: real, n: int, surface: bool, reflon: real, right: real)
    requires d > 0.0 && d * n as real == Span(surface) && right == d * Quantised(zones)
    requires -d / 2.0 <= WrapLongitude(reflon - right) < d / 2.0
    ensures WrapLongitude(NearestInZones(reflon, d, Encode(zones) as real / 131072.0)) == WrapLongitude(right)
  {
    var s := WrapCountsTurns(reflon - right);
    if surface {
      TurnedNearest(zones, d, n, 90.0, 4, -s, reflon);
    } else {
      TurnedNearest(zones, d, n, 360.0, 1, -s, reflon);
    }
    WrapIgnoresTurns(right, -s);
  }

  lemma NearWhenSame(near: real, right: real, reflon: real, d: real)
    requires 0.0 < d <= 360.0 && reflon - d / 2.0 < near <= reflon + d / 2.0
    requires WrapLongitude(near) == WrapLongitude(right)
    ensures -d / 2.0 <= WrapLongitude(reflon - right) < d / 2.0
  {
    var a := WrapCountsTurns(near);
    var b := WrapCountsTurns(right);
    WrapIgnoresTurns(reflon - near, b - a);
    assert reflon - right == reflon - near - 360.0 * (b - a) as real;
  }

  lemma TurnedGridPoint(d: real, n: int, span: real, turn: int, s: int, quantised: real)
    requires d * n as real == span && span * turn as real == 360.0
    ensures d * (quantised - n as real * (turn * s) as real) == d * quantised - 360.0 * s as real
  {
    assert d * (n as real * (turn * s) as real) == span * (turn * s) as real;
    assert span * (turn * s) as real == span * turn as real * s as real;
  }

  /** The final guard never rejects: the nearest grid longitude stays near once normalised. */
  lemma WrappedStaysNear(lon: real, reflon: real, d: real)
    requires 0.0 < d <= 360.0 && -d / 2.0 < lon - reflon <= d / 2.0
    ensures RealAbs(WrapLongitude(WrapLongitude(lon) - reflon)) <= d / 2.0
  {
    var t := WrapCountsTurns(lon);
    WrapIgnoresTurns(lon - reflon, t);
  }

  lemma LongitudeZoneAtMostTurn(nl: int, odd: bool, surface: bool)
    requires nl >= 1
    ensures 0.0 < LongitudeZoneSize(nl, odd, surface) <= 360.0
  {
    var n, d := ZonesForParity(nl, odd), LongitudeZoneSize(nl, odd, surface);
    assert d * (n - 1) as real >= 0.0;
    assert d * n as real == d * (n - 1) as real + d;
  }

  lemma RelativeLongitudeAccepted(reflon: real, dlon: real, fraction: real)
    requires 0.0 < dlon <= 360.0
    ensures var lon := NearestInZones(reflon, dlon, fraction);
      reflon - dlon / 2.0 < lon <= reflon + dlon / 2.0
      && RealAbs(WrapLongitude(WrapLongitude(lon) - reflon)) <= dlon / 2.0
  {
    NearestInZonesIsNearest(reflon, dlon, fraction);
    WrappedStaysNear(NearestInZones(reflon, dlon, fraction), reflon, dlon);
  }

  lemma RelativeLatitudeAccepted(reflat: real, dlat: real, fraction: real)
    requires LatitudeInRange(reflat) && 0.0 < dlat <= 6.2
    ensures var lat := NearestInZones(reflat, dlat, fraction);
      reflat - dlat / 2.0 < lat <= reflat + dlat / 2.0
      && WrapLatitude(lat) == lat && RealAbs(lat - reflat) <= dlat / 2.0
  {
    NearestInZonesIsNearest(reflat, dlat, fraction);
  }

  /**
   For a reference latitude in range, decoding one frame answers exactly when
   the grid latitude nearest the reference is not beyond a pole, and then with
   the grid point nearest the reference in each coordinate; neither distance
   guard ever rejects.
   */
  lemma RelativeAnswers(ref: Position, cprLat: nat, cprLon: nat, fflag: bool, surface: bool)
    requires LatitudeInRange(ref.lat)
    ensures var dlat := Span(surface) / (if fflag then 59.0 else 60.0);
      var lat := NearestInZones(ref.lat, dlat, cprLat as real / 131072.0);
      var dlon := LongitudeZoneSize(LongitudeZones(lat), fflag, surface);
      var lon := NearestInZones(ref.lon, dlon, cprLon as real / 131072.0);
      ref.lat - dlat / 2.0 < lat <= ref.lat + dlat / 2.0 && ref.lon - dlon / 2.0 < lon <= ref.lon + dlon / 2.0
      && DecodeRelative(ref, cprLat, cprLon, fflag, surface)
         == if LatitudeInRange(lat) then Some(Position(lat, WrapLongitude(lon))) else None
  {
    var dlat := Span(surface) / (if fflag then 59.0 else 60.0);
    RelativeLatitudeAccepted(ref.lat, dlat, cprLat as real / 131072.0);
    var nl := LongitudeZones(NearestInZones(ref.lat, dlat, cprLat as real / 131072.0));
    LongitudeZoneAtMostTurn(nl, fflag, surface);
    RelativeLongitudeAccepted(ref.lon, LongitudeZoneSize(nl, fflag, surface), cprLon as real / 131072.0);
    BothGuardsPass(ref, cprLat, cprLon, fflag, surface, dlat, NearestInZones(ref.lat, dlat, cprLat as real / 131072.0));
  }

  lemma BothGuardsPass(ref: Position, cprLat: nat, cprLon: nat, fflag: bool, surface: bool, dlat: real, lat: real)
    requires dlat == Span(surface) / (if fflag then 59.0 else 60.0)
    requires lat == NearestInZones(ref.lat, dlat, cprLat as real / 131072.0)
    requires WrapLatitude(lat) == lat && RealAbs(lat - ref.lat) <= dlat / 2.0
    requires var dlon := LongitudeZoneSize(LongitudeZones(lat), fflag, surface);
      var lon := NearestInZones(ref.lon, dlon, cprLon as real / 131072.0);
      RealAbs(WrapLongitude(WrapLongitude(lon) - ref.lon)) <= dlon / 2.0
    ensures var dlon := LongitudeZoneSize(LongitudeZones(lat), fflag, surface);
      var lon := NearestInZones(ref.lon, dlon, cprLon as real / 131072.0);
      DecodeRelative(ref, cprLat, cprLon, fflag, surface)
      == if LatitudeInRange(lat) then Some(Position(lat, WrapLongitude(lon))) else None
  {
  }

  /**
   A position is recovered from one frame exactly when it lies within half a zone
   of the reference in both coordinates, the far ends included, across the
   antimeridian too.
   */
  lemma RelativeRoundTrip(ref: Position, p: Position, fflag: bool, surface: bool)
    requires LatitudeInRange(p.lat) && LatitudeInRange(ref.lat)
    ensures var nl := GridZones(p.lat, fflag, surface);
      var lat, lon := QuantisedLatitude(p.lat, fflag, surface), QuantisedLongitude(p.lon, nl, fflag, surface);
      var dlat, dlon := Span(surface) / (if fflag then 59.0 else 60.0), LongitudeZoneSize(nl, fflag, surface);
      DecodeRelative(ref, EncodeLatitude(p, fflag, surface), EncodeLongitude(p, fflag, surface), fflag, surface)
         == Some(QuantisedPosition(p, fflag, surface))
      <==> (&& ref.lat - dlat / 2.0 < lat <= ref.lat + dlat / 2.0
            && -dlon / 2.0 <= WrapLongitude(ref.lon - lon) < dlon / 2.0)
  {
    var nl, dlat := GridZones(p.lat, fflag, surface), Span(surface) / (if fflag then 59.0 else 60.0);
    var dlon := LongitudeZoneSize(nl, fflag, surface);
    RelativeLatitude(p.lat, ref.lat, fflag, surface, dlat);
    RelativeAnswers(ref, EncodeLatitude(p, fflag, surface), EncodeLongitude(p, fflag, surface), fflag, surface);
    RelativeLongitude(p.lon, ref.lon, nl, fflag, surface, dlon, QuantisedLongitude(p.lon, nl, fflag, surface),
                      NearestInZones(ref.lon, dlon, EncodeLongitude(p, fflag, surface) as real / 131072.0));
  }
}
