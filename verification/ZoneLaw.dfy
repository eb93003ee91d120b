/**
 The zone law of section A.1.7.2 of RTCA DO-260B, apart from the table: at latitude `lat`
 there are at least n longitude zones exactly where cos(lat)^2 (1 - cos(2 pi / n)) is at
 least 1 - cos(pi / 30).  The cosine enters through two partial sums of its series.
 */
module ZoneLaw {
  import opened Wrappers
  import opened Cpr

  /**
   A bound not above the first fourteen terms of the cosine series, nested from the inside
   out; the divisors are 1 * 2, 3 * 4, and so on to 25 * 26.
   */
  predicate Under(c: real, x: real)
  {
    var y := x * x;
    c <= 1.0 - y / 2.0 * (1.0 - y / 12.0 * (1.0 - y / 30.0 * (1.0 - y / 56.0 * (1.0 - y / 90.0 * (1.0 - y / 132.0
      * (1.0 - y / 182.0 * (1.0 - y / 240.0 * (1.0 - y / 306.0 * (1.0 - y / 380.0 * (1.0 - y / 462.0
      * (1.0 - y / 552.0 * (1.0 - y / 650.0))))))))))))
  }

  /** A bound not below the first thirteen. */
  predicate Over(c: real, x: real)
  {
    var y := x * x;
    c >= 1.0 - y / 2.0 * (1.0 - y / 12.0 * (1.0 - y / 30.0 * (1.0 - y / 56.0 * (1.0 - y / 90.0 * (1.0 - y / 132.0
      * (1.0 - y / 182.0 * (1.0 - y / 240.0 * (1.0 - y / 306.0 * (1.0 - y / 380.0 * (1.0 - y / 462.0
      * (1.0 - y / 552.0)))))))))))
  }

  /** All that is used of the cosine and of pi: the two sums bound it, and it falls over half a turn. */
  ghost predicate IsCosine(cos: real -> real, pi: real) { Summed(cos) && Falls(cos, pi) }

  ghost predicate Summed(cos: real -> real)
  {
    && (forall c, x :: 0.0 <= x && Under(c, x) ==> c <= cos(x))
    && (forall c, x :: 0.0 <= x && Over(c, x) ==> cos(x) <= c)
  }

  ghost predicate Falls(cos: real -> real, pi: real)
  {
    && 3.1415926535897932 < pi < 3.1415926535897933 && cos(pi / 2.0) == 0.0
    && (forall x :: -1.0 <= cos(x) <= 1.0)
    && (forall x, y :: 0.0 <= x <= y <= pi ==> cos(y) <= cos(x))
  }

  /** An angle in degrees, and the n-th part of a turn. */
  function Angle(pi: real, lat: real): real { lat * pi / 180.0 }

  function Part(pi: real, n: real): real
    requires n > 0.0
  {
    2.0 * pi / n
  }

  /** Positive where a latitude has room for more than `n` zones' worth, negative where it has room for less. */
  ghost function Law(cos: real -> real, pi: real, lat: real, n: int): real
    requires n >= 1
  {
    Balance(cos(Angle(pi, lat)), cos(Part(pi, n as real)), cos(pi / 30.0))
  }

  /** The law in the cosines of the latitude, of a zone of longitude and of an even zone of latitude. */
  function Balance(lat: real, zone: real, unit: real): real
  {
    lat * lat * (1.0 - zone) - (1.0 - unit)
  }

  const MARGIN := 0.0000001

  /** At `b` the law changes sign, to within the margin. */
  ghost predicate StepsAt(cos: real -> real, pi: real, n: int, b: real)
    requires n >= 1
  {
    MARGIN <= b <= 90.0 - MARGIN && Law(cos, pi, b - MARGIN, n) > 0.0 > Law(cos, pi, b + MARGIN, n)
  }

  // ---------------------------------------------------------------------
  // What decides the sign of the law around a latitude
  // ---------------------------------------------------------------------

  /** Bounds of the cosines just before and after `b`, and of a zone's. */
  ghost predicate Bounds(cos: real -> real, n: real, b: real, before: real, after: real, most: real, least: real)
    requires n >= 2.0
  {
    && 0.0 <= before <= cos((b - 0.0000001) * 3.1415926535897933 / 180.0)
    && cos((b + 0.0000001) * 3.1415926535897932 / 180.0) <= after
    && cos(2.0 * 3.1415926535897932 / n) <= most <= 1.0
    && (least == -1.0 || (n >= 3.0 && least <= cos(2.0 * 3.1415926535897933 / n)))
  }

  /** The same by the partial sums. */
  predicate Sums(n: real, b: real, before: real, after: real, most: real, least: real)
    requires n >= 2.0
  {
    && 0.0 <= before && Under(before, (b - 0.0000001) * 3.1415926535897933 / 180.0)
    && Over(after, (b + 0.0000001) * 3.1415926535897932 / 180.0)
    && most <= 1.0 && Over(most, 2.0 * 3.1415926535897932 / n)
    && (least == -1.0 || (n >= 3.0 && Under(least, 2.0 * 3.1415926535897933 / n)))
  }

  /** Bounds of the cosine of an even zone of latitude. */
  ghost predicate UnitBounded(cos: real -> real)
  {
    0.9945218953682 <= cos(3.1415926535897933 / 30.0) && cos(3.1415926535897932 / 30.0) <= 0.9945218953683
  }

  lemma UnitBounds(cos: real -> real)
    requires Summed(cos)
    ensures UnitBounded(cos)
  {
    assert Under(0.9945218953682, 3.1415926535897933 / 30.0);
    assert Over(0.9945218953683, 3.1415926535897932 / 30.0);
  }

  lemma Products(a: real, b: real, c: real, d: real)
    requires 0.0 <= a <= b && 0.0 <= c <= d
    ensures 0.0 <= a * c <= b * d
  {
  }

  /** A larger cosine of the latitude and a smaller one of the zone leave more room. */
  lemma BalanceGrows(lat: real, more: real, zone: real, less: real, unit: real, unit': real)
    requires 0.0 <= lat <= more && less <= zone <= 1.0 && unit <= unit'
    ensures Balance(lat, zone, unit) <= Balance(more, less, unit')
  {
    Products(lat, more, lat, more);
    Products(lat * lat, more * more, 1.0 - zone, 1.0 - less);
  }

  lemma AnglesGrow(p: real, q: real, lat: real, far: real)
    requires 0.0 <= p <= q && 0.0 <= lat <= far
    ensures 0.0 <= Angle(p, lat) <= Angle(q, far)
  {
    Products(lat, far, p, q);
  }

  lemma PartsGrow(p: real, q: real, n: real)
    requires 0.0 <= p <= q && n > 0.0
    ensures 0.0 <= Part(p, n) <= Part(q, n)
  {
  }

  lemma PartsShrink(p: real, n: real, m: real)
    requires 0.0 <= p && 0.0 < m <= n
    ensures Part(p, n) <= Part(p, m)
  {
    var a, b := Part(p, n), Part(p, m);
    assert a * n == 2.0 * p == b * m;
    if a > b {
      Products(b, a, m, n);
    }
  }

  /** North or south of the equator, an angle has a cosine that is not negative. */
  lemma CosinePositive(cos: real -> real, pi: real, lat: real)
    requires Falls(cos, pi) && 0.0 <= lat <= 90.0
    ensures 0.0 <= cos(Angle(pi, lat)) && Angle(pi, lat) <= pi
  {
    AnglesGrow(pi, pi, lat, 90.0);
  }

  /** A zone's cosine is between the bounds. */
  lemma ZoneCosine(cos: real -> real, pi: real, n: real, b: real, before: real, after: real, most: real, least: real)
    requires Falls(cos, pi) && n >= 2.0 && Bounds(cos, n, b, before, after, most, least)
    ensures least <= cos(Part(pi, n)) <= most
  {
    PartsGrow(3.1415926535897932, pi, n);
    PartsGrow(pi, 3.1415926535897933, n);
    PartsShrink(pi, n, 2.0);
    if n >= 3.0 {
      PartsShrink(3.1415926535897933, n, 3.0);
    }
  }

  lemma Decided(cos: real -> real, pi: real, n: int, b: real, before: real, after: real, most: real, least: real)
    requires Falls(cos, pi) && n >= 2 && MARGIN <= b <= 90.0 - MARGIN
    requires Bounds(cos, n as real, b, before, after, most, least) && UnitBounded(cos)
    requires Balance(before, most, 0.9945218953682) > 0.0 > Balance(after, least, 0.9945218953683)
    ensures StepsAt(cos, pi, n, b)
  {
    ZoneCosine(cos, pi, n as real, b, before, after, most, least);
    var zone, unit := cos(Part(pi, n as real)), cos(pi / 30.0);
    AnglesGrow(pi, 3.1415926535897933, b - MARGIN, b - MARGIN);
    AnglesGrow(3.1415926535897933, 3.1415926535897933, b - MARGIN, 90.0);
    BalanceGrows(before, cos(Angle(pi, b - MARGIN)), most, zone, 0.9945218953682, unit);
    AnglesGrow(3.1415926535897932, pi, b + MARGIN, b + MARGIN);
    CosinePositive(cos, pi, b + MARGIN);
    BalanceGrows(cos(Angle(pi, b + MARGIN)), after, zone, least, unit, 0.9945218953683);
  }

  /** Further from the equator there is less room. */
  lemma LawFalls(cos: real -> real, pi: real, n: int, a: real, b: real)
    requires Falls(cos, pi) && n >= 2 && 0.0 <= a <= b <= 90.0
    ensures Law(cos, pi, b, n) <= Law(cos, pi, a, n)
  {
    CosinePositive(cos, pi, b);
    AnglesGrow(pi, pi, a, b);
    var zone, unit := cos(Part(pi, n as real)), cos(pi / 30.0);
    BalanceGrows(cos(Angle(pi, b)), cos(Angle(pi, a)), zone, zone, unit, unit);
  }

  // ---------------------------------------------------------------------
  // The law changes sign at every latitude of the table
  // ---------------------------------------------------------------------

  /** Bounds that decide the signs around `b`. */
  ghost predicate Settles(cos: real -> real, n: int, b: real, before: real, after: real, most: real, least: real)
    requires n >= 2
  {
    && MARGIN <= b <= 90.0 - MARGIN && Bounds(cos, n as real, b, before, after, most, least)
    && Balance(before, most, 0.9945218953682) > 0.0 > Balance(after, least, 0.9945218953683)
  }

  lemma Row(cos: real -> real, n: int, r: real, b: real, c: real, c2: real, d: real, d2: real)
    returns (before: real, after: real, most: real, least: real)
    requires n >= 2 && r == n as real && MARGIN <= b <= 90.0 - MARGIN && Bounds(cos, r, b, c, c2, d, d2)
    requires Balance(c, d, 0.9945218953682) > 0.0 > Balance(c2, d2, 0.9945218953683)
    ensures before == c && after == c2 && most == d && least == d2
    ensures Settles(cos, n, b, before, after, most, least)
  {
    before, after, most, least := c, c2, d, d2;
  }

  lemma StepsFrom59(cos: real -> real, n: int)
    returns (before: real, after: real, most: real, least: real)
    requires Summed(cos) && 50 <= n <= 59
    ensures Settles(cos, n, BOUNDARIES_59[59 - n], before, after, most, least)
  {
    match n {
      case 59 =>
        assert Sums(59.0, 10.47047130, 0.9833486965726, 0.9833486959384, 0.9943348002102, 0.9943348002101);
        before, after, most, least :=
          Row(cos, 59, 59.0, 10.47047130, 0.9833486965726, 0.9833486959384, 0.9943348002102, 0.9943348002101);
      case 58 =>
        assert Sums(58.0, 14.82817437, 0.9666976604124, 0.9666976595192, 0.9941379571544, 0.9941379571543);
        before, after, most, least :=
          Row(cos, 58, 58.0, 14.82817437, 0.9666976604124, 0.9666976595192, 0.9941379571544, 0.9941379571543);
      case 57 =>
        assert Sums(57.0, 18.18626357, 0.9500469057931, 0.9500469047038, 0.9939306773180, 0.9939306773179);
        before, after, most, least :=
          Row(cos, 57, 57.0, 18.18626357, 0.9500469057931, 0.9500469047038, 0.9939306773180, 0.9939306773179);
      case 56 =>
        assert Sums(56.0, 21.02939493, 0.9333964477806, 0.9333964465281, 0.9937122098933, 0.9937122098932);
        before, after, most, least :=
          Row(cos, 56, 56.0, 21.02939493, 0.9333964477806, 0.9333964465281, 0.9937122098933, 0.9937122098932);
      case 55 =>
        assert Sums(55.0, 23.54504487, 0.9167463026474, 0.9167463012531, 0.9934817353486, 0.9934817353485);
        before, after, most, least :=
          Row(cos, 55, 55.0, 23.54504487, 0.9167463026474, 0.9167463012531, 0.9934817353486, 0.9934817353485);
      case 54 =>
        assert Sums(54.0, 25.82924707, 0.9000964878235, 0.9000964863027, 0.9932383577420, 0.9932383577419);
        before, after, most, least :=
          Row(cos, 54, 54.0, 25.82924707, 0.9000964878235, 0.9000964863027, 0.9932383577420, 0.9932383577419);
      case 53 =>
        assert Sums(53.0, 27.93898710, 0.8834470219639, 0.8834470203285, 0.9929810960136, 0.9929810960135);
        before, after, most, least :=
          Row(cos, 53, 53.0, 27.93898710, 0.8834470219639, 0.8834470203285, 0.9929810960136, 0.9929810960135);
      case 52 =>
        assert Sums(52.0, 29.91135686, 0.8667979252290, 0.8667979234884, 0.9927088740981, 0.9927088740980);
        before, after, most, least :=
          Row(cos, 52, 52.0, 29.91135686, 0.8667979252290, 0.8667979234884, 0.9927088740981, 0.9927088740980);
      case 51 =>
        assert Sums(51.0, 31.77209708, 0.8501492194387, 0.8501492176008, 0.9924205096720, 0.9924205096719);
        before, after, most, least :=
          Row(cos, 51, 51.0, 31.77209708, 0.8501492194387, 0.8501492176008, 0.9924205096720, 0.9924205096719);
      case 50 =>
        assert Sums(50.0, 33.53993436, 0.8335009281276, 0.8335009261991, 0.9921147013145, 0.9921147013144);
        before, after, most, least :=
          Row(cos, 50, 50.0, 33.53993436, 0.8335009281276, 0.8335009261991, 0.9921147013145, 0.9921147013144);
    }
  }

  lemma StepsFrom49(cos: real -> real, n: int)
    returns (before: real, after: real, most: real, least: real)
    requires Summed(cos) && 40 <= n <= 49
    ensures Settles(cos, n, BOUNDARIES_49[49 - n], before, after, most, least)
  {
    match n {
      case 49 =>
        assert Sums(49.0, 35.22899598, 0.8168530765446, 0.8168530745311, 0.9917900138233, 0.9917900138232);
        before, after, most, least :=
          Row(cos, 49, 49.0, 35.22899598, 0.8168530765446, 0.8168530745311, 0.9917900138233, 0.9917900138232);
      case 48 =>
        assert Sums(48.0, 36.85025108, 0.8002056923676, 0.8002056902743, 0.9914448613739, 0.9914448613738);
        before, after, most, least :=
          Row(cos, 48, 48.0, 36.85025108, 0.8002056923676, 0.8002056902743, 0.9914448613739, 0.9914448613738);
      case 47 =>
        assert Sums(47.0, 38.41241892, 0.7835588055723, 0.7835588034036, 0.9910774881548, 0.9910774881547);
        before, after, most, least :=
          Row(cos, 47, 47.0, 38.41241892, 0.7835588055723, 0.7835588034036, 0.9910774881548, 0.9910774881547);
      case 46 =>
        assert Sums(46.0, 39.92256684, 0.7669124484543, 0.7669124462142, 0.9906859460364, 0.9906859460363);
        before, after, most, least :=
          Row(cos, 46, 46.0, 39.92256684, 0.7669124484543, 0.7669124462142, 0.9906859460364, 0.9906859460363);
      case 45 =>
        assert Sums(45.0, 41.38651832, 0.7502666565042, 0.7502666541965, 0.9902680687416, 0.9902680687415);
        before, after, most, least :=
          Row(cos, 45, 45.0, 41.38651832, 0.7502666565042, 0.7502666541965, 0.9902680687416, 0.9902680687415);
      case 44 =>
        assert Sums(44.0, 42.80914012, 0.7336214683514, 0.7336214659794, 0.9898214418810, 0.9898214418809);
        before, after, most, least :=
          Row(cos, 44, 44.0, 42.80914012, 0.7336214683514, 0.7336214659794, 0.9898214418810, 0.9898214418809);
      case 43 =>
        assert Sums(43.0, 44.19454951, 0.7169769262397, 0.7169769238064, 0.9893433680752, 0.9893433680751);
        before, after, most, least :=
          Row(cos, 43, 43.0, 44.19454951, 0.7169769262397, 0.7169769238064, 0.9893433680752, 0.9893433680751);
      case 42 =>
        assert Sums(42.0, 45.54626723, 0.7003330762908, 0.7003330737992, 0.9888308262252, 0.9888308262251);
        before, after, most, least :=
          Row(cos, 42, 42.0, 45.54626723, 0.7003330762908, 0.7003330737992, 0.9888308262252, 0.9888308262251);
      case 41 =>
        assert Sums(41.0, 46.86733252, 0.6836899696081, 0.6836899670608, 0.9882804237804, 0.9882804237803);
        before, after, most, least :=
          Row(cos, 41, 41.0, 46.86733252, 0.6836899696081, 0.6836899670608, 0.9882804237804, 0.9882804237803);
      case 40 =>
        assert Sums(40.0, 48.16039128, 0.6670476617203, 0.6670476591198, 0.9876883405952, 0.9876883405951);
        before, after, most, least :=
          Row(cos, 40, 40.0, 48.16039128, 0.6670476617203, 0.6670476591198, 0.9876883405952, 0.9876883405951);
    }
  }

  lemma StepsFrom39(cos: real -> real, n: int)
    returns (before: real, after: real, most: real, least: real)
    requires Summed(cos) && 30 <= n <= 39
    ensures Settles(cos, n, BOUNDARIES_39[39 - n], before, after, most, least)
  {
    match n {
      case 39 =>
        assert Sums(39.0, 49.42776439, 0.6504062144937, 0.6504062118424, 0.9870502626380, 0.9870502626379);
        before, after, most, least :=
          Row(cos, 39, 39.0, 49.42776439, 0.6504062144937, 0.6504062118424, 0.9870502626380, 0.9870502626379);
      case 38 =>
        assert Sums(38.0, 50.67150166, 0.6337656958905, 0.6337656931905, 0.9863613034028, 0.9863613034027);
        before, after, most, least :=
          Row(cos, 38, 38.0, 50.67150166, 0.6337656958905, 0.6337656931905, 0.9863613034028, 0.9863613034027);
      case 37 =>
        assert Sums(37.0, 51.89342469, 0.6171261817503, 0.6171261790037, 0.9856159103478, 0.9856159103477);
        before, after, most, least :=
          Row(cos, 37, 37.0, 51.89342469, 0.6171261817503, 0.6171261790037, 0.9856159103478, 0.9856159103477);
      case 36 =>
        assert Sums(36.0, 53.09516153, 0.6004877557366, 0.6004877529454, 0.9848077530123, 0.9848077530122);
        before, after, most, least :=
          Row(cos, 36, 36.0, 53.09516153, 0.6004877557366, 0.6004877529454, 0.9848077530123, 0.9848077530122);
      case 35 =>
        assert Sums(35.0, 54.27817472, 0.5838505117192, 0.5838505088853, 0.9839295885987, 0.9839295885986);
        before, after, most, least :=
          Row(cos, 35, 35.0, 54.27817472, 0.5838505117192, 0.5838505088853, 0.9839295885987, 0.9839295885986);
      case 34 =>
        assert Sums(34.0, 55.44378444, 0.5672145542259, 0.5672145513512, 0.9829730996840, 0.9829730996839);
        before, after, most, least :=
          Row(cos, 34, 34.0, 55.44378444, 0.5672145542259, 0.5672145513512, 0.9829730996840, 0.9829730996839);
      case 33 =>
        assert Sums(33.0, 56.59318756, 0.5505800006509, 0.5505799977370, 0.9819286972628, 0.9819286972627);
        before, after, most, least :=
          Row(cos, 33, 33.0, 56.59318756, 0.5505800006509, 0.5505799977370, 0.9819286972628, 0.9819286972627);
      case 32 =>
        assert Sums(32.0, 57.72747354, 0.5339469832488, 0.5339469802975, 0.9807852804033, 0.9807852804032);
        before, after, most, least :=
          Row(cos, 32, 32.0, 57.72747354, 0.5339469832488, 0.5339469802975, 0.9807852804033, 0.9807852804032);
      case 31 =>
        assert Sums(31.0, 58.84763776, 0.5173156514625, 0.5173156484753, 0.9795299412525, 0.9795299412524);
        before, after, most, least :=
          Row(cos, 31, 31.0, 58.84763776, 0.5173156514625, 0.5173156484753, 0.9795299412525, 0.9795299412524);
      case 30 =>
        assert Sums(30.0, 59.95459277, 0.5006861744635, 0.5006861714420, 0.9781476007339, 0.9781476007338);
        before, after, most, least :=
          Row(cos, 30, 30.0, 59.95459277, 0.5006861744635, 0.5006861714420, 0.9781476007339, 0.9781476007338);
    }
  }

  lemma StepsFrom29(cos: real -> real, n: int)
    returns (before: real, after: real, most: real, least: real)
    requires Summed(cos) && 20 <= n <= 29
    ensures Settles(cos, n, BOUNDARIES_29[29 - n], before, after, most, least)
  {
    match n {
      case 29 =>
        assert Sums(29.0, 61.04917774, 0.4840587453996, 0.4840587423452, 0.9766205557101, 0.9766205557100);
        before, after, most, least :=
          Row(cos, 29, 29.0, 61.04917774, 0.4840587453996, 0.4840587423452, 0.9766205557101, 0.9766205557100);
      case 28 =>
        assert Sums(28.0, 62.13216659, 0.4674335846580, 0.4674335815723, 0.9749279121819, 0.9749279121818);
        before, after, most, least :=
          Row(cos, 28, 28.0, 62.13216659, 0.4674335846580, 0.4674335815723, 0.9749279121819, 0.9749279121818);
      case 27 =>
        assert Sums(27.0, 63.20427479, 0.4508109459140, 0.4508109427983, 0.9730448705799, 0.9730448705798);
        before, after, most, least :=
          Row(cos, 27, 27.0, 63.20427479, 0.4508109459140, 0.4508109427983, 0.9730448705799, 0.9730448705798);
      case 26 =>
        assert Sums(26.0, 64.26616523, 0.4341911218510, 0.4341911187066, 0.9709418174261, 0.9709418174260);
        before, after, most, least :=
          Row(cos, 26, 26.0, 64.26616523, 0.4341911218510, 0.4341911187066, 0.9709418174261, 0.9709418174260);
      case 25 =>
        assert Sums(25.0, 65.31845310, 0.4175744528966, 0.4175744497250, 0.9685831611287, 0.9685831611286);
        before, after, most, least :=
          Row(cos, 25, 25.0, 65.31845310, 0.4175744528966, 0.4175744497250, 0.9685831611287, 0.9685831611286);
      case 24 =>
        assert Sums(24.0, 66.36171008, 0.4009613363377, 0.4009613331400, 0.9659258262891, 0.9659258262890);
        before, after, most, least :=
          Row(cos, 24, 24.0, 66.36171008, 0.4009613363377, 0.4009613331400, 0.9659258262891, 0.9659258262890);
      case 23 =>
        assert Sums(23.0, 67.39646774, 0.3843522390509, 0.3843522358284, 0.9629172873478, 0.9629172873477);
        before, after, most, least :=
          Row(cos, 23, 23.0, 67.39646774, 0.3843522390509, 0.3843522358284, 0.9629172873478, 0.9629172873477);
      case 22 =>
        assert Sums(22.0, 68.42322022, 0.3677477142288, 0.3677477109829, 0.9594929736145, 0.9594929736144);
        before, after, most, least :=
          Row(cos, 22, 22.0, 68.42322022, 0.3677477142288, 0.3677477109829, 0.9594929736145, 0.9594929736144);
      case 21 =>
        assert Sums(21.0, 69.44242631, 0.3511484214024, 0.3511484181342, 0.9555728057862, 0.9555728057861);
        before, after, most, least :=
          Row(cos, 21, 21.0, 69.44242631, 0.3511484214024, 0.3511484181342, 0.9555728057862, 0.9555728057861);
      case 20 =>
        assert Sums(20.0, 70.45451075, 0.3345551537281, 0.3345551504387, 0.9510565162952, 0.9510565162951);
        before, after, most, least :=
          Row(cos, 20, 20.0, 70.45451075, 0.3345551537281, 0.3345551504387, 0.9510565162952, 0.9510565162951);
    }
  }

  lemma StepsFrom19(cos: real -> real, n: int)
    returns (before: real, after: real, most: real, least: real)
    requires Summed(cos) && 10 <= n <= 19
    ensures Settles(cos, n, BOUNDARIES_19[19 - n], before, after, most, least)
  {
    match n {
      case 19 =>
        assert Sums(19.0, 71.45986473, 0.3179688738665, 0.3179688705571, 0.9458172417007, 0.9458172417006);
        before, after, most, least :=
          Row(cos, 19, 19.0, 71.45986473, 0.3179688738665, 0.3179688705571, 0.9458172417007, 0.9458172417006);
      case 18 =>
        assert Sums(18.0, 72.45884545, 0.3013907616380, 0.3013907583097, 0.9396926207860, 0.9396926207859);
        before, after, most, least :=
          Row(cos, 18, 18.0, 72.45884545, 0.3013907616380, 0.3013907583097, 0.9396926207860, 0.9396926207859);
      case 17 =>
        assert Sums(17.0, 73.45177442, 0.2848222796012, 0.2848222762553, 0.9324722294044, 0.9324722294043);
        before, after, most, least :=
          Row(cos, 17, 17.0, 73.45177442, 0.2848222796012, 0.2848222762553, 0.9324722294044, 0.9324722294043);
      case 16 =>
        assert Sums(16.0, 74.43893416, 0.2682652630898, 0.2682652597272, 0.9238795325113, 0.9238795325112);
        before, after, most, least :=
          Row(cos, 16, 16.0, 74.43893416, 0.2682652630898, 0.2682652597272, 0.9238795325113, 0.9238795325112);
      case 15 =>
        assert Sums(15.0, 75.42056257, 0.2517220478372, 0.2517220444591, 0.9135454576427, 0.9135454576426);
        before, after, most, least :=
          Row(cos, 15, 15.0, 75.42056257, 0.2517220478372, 0.2517220444591, 0.9135454576427, 0.9135454576426);
      case 14 =>
        assert Sums(14.0, 76.39684391, 0.2351956540993, 0.2351956507067, 0.9009688679025, 0.9009688679024);
        before, after, most, least :=
          Row(cos, 14, 14.0, 76.39684391, 0.2351956540993, 0.2351956507067, 0.9009688679025, 0.9009688679024);
      case 13 =>
        assert Sums(13.0, 77.36789461, 0.2186900586708, 0.2186900552647, 0.8854560256533, 0.8854560256532);
        before, after, most, least :=
          Row(cos, 13, 13.0, 77.36789461, 0.2186900586708, 0.2186900552647, 0.8854560256533, 0.8854560256532);
      case 12 =>
        assert Sums(12.0, 78.33374083, 0.2022106088104, 0.2022106053919, 0.8660254037845, 0.8660254037844);
        before, after, most, least :=
          Row(cos, 12, 12.0, 78.33374083, 0.2022106088104, 0.2022106053919, 0.8660254037845, 0.8660254037844);
      case 11 =>
        assert Sums(11.0, 79.29428225, 0.1857646746081, 0.1857646711783, 0.8412535328312, 0.8412535328311);
        before, after, most, least :=
          Row(cos, 11, 11.0, 79.29428225, 0.1857646746081, 0.1857646711783, 0.8412535328312, 0.8412535328311);
      case 10 =>
        assert Sums(10.0, 80.24923213, 0.1693627138379, 0.1693627103978, 0.8090169943750, 0.8090169943749);
        before, after, most, least :=
          Row(cos, 10, 10.0, 80.24923213, 0.1693627138379, 0.1693627103978, 0.8090169943750, 0.8090169943749);
    }
  }

  lemma StepsFrom9(cos: real -> real, n: int)
    returns (before: real, after: real, most: real, least: real)
    requires Summed(cos) && 2 <= n <= 9
    ensures Settles(cos, n, BOUNDARIES_9[9 - n], before, after, most, least)
  {
    match n {
      case 9 =>
        assert Sums(9.0, 81.19801349, 0.1530201009215, 0.1530200974720, 0.7660444431190, 0.7660444431189);
        before, after, most, least :=
          Row(cos, 9, 9.0, 81.19801349, 0.1530201009215, 0.1530200974720, 0.7660444431190, 0.7660444431189);
      case 8 =>
        assert Sums(8.0, 82.13956981, 0.1367604459611, 0.1367604425033, 0.7071067811866, 0.7071067811865);
        before, after, most, least :=
          Row(cos, 8, 8.0, 82.13956981, 0.1367604459611, 0.1367604425033, 0.7071067811866, 0.7071067811865);
      case 7 =>
        assert Sums(7.0, 83.07199445, 0.1206220751210, 0.1206220716559, 0.6234898018588, 0.6234898018587);
        before, after, most, least :=
          Row(cos, 7, 7.0, 83.07199445, 0.1206220751210, 0.1206220716559, 0.6234898018588, 0.6234898018587);
      case 6 =>
        assert Sums(6.0, 83.99173563, 0.1046719142182, 0.1046719107468, 0.5000000000001, 0.4999999999999);
        before, after, most, least :=
          Row(cos, 6, 6.0, 83.99173563, 0.1046719142182, 0.1046719107468, 0.5000000000001, 0.4999999999999);
      case 5 =>
        assert Sums(5.0, 84.89166191, 0.0890392486544, 0.0890392451777, 0.3090169943750, 0.3090169943749);
        before, after, most, least :=
          Row(cos, 5, 5.0, 84.89166191, 0.0890392486544, 0.0890392451777, 0.3090169943750, 0.3090169943749);
      case 4 =>
        assert Sums(4.0, 85.75541621, 0.0740142208494, 0.0740142173684, 0.0000000000001, -0.0000000000001);
        before, after, most, least :=
          Row(cos, 4, 4.0, 85.75541621, 0.0740142208494, 0.0740142173684, 0.0000000000001, -0.0000000000001);
      case 3 =>
        assert Sums(3.0, 86.53536998, 0.0604323585074, 0.0604323550232, -0.4999999999999, -0.5000000000001);
        before, after, most, least :=
          Row(cos, 3, 3.0, 86.53536998, 0.0604323585074, 0.0604323550232, -0.4999999999999, -0.5000000000001);
      case 2 =>
        assert Sums(2.0, 87.00000000, 0.0523359579858, 0.0523359545001, -0.9999999999999, -1.0);
        before, after, most, least :=
          Row(cos, 2, 2.0, 87.00000000, 0.0523359579858, 0.0523359545001, -0.9999999999999, -1.0);
    }
  }

  /** The law for n changes sign within the margin of the table's own latitude for n. */
  lemma TableSteps(cos: real -> real, pi: real, n: int)
    requires IsCosine(cos, pi) && 2 <= n <= 59
    ensures StepsAt(cos, pi, n, BOUNDARIES[59 - n])
  {
    var b, before, after, most, least := Settled(cos, n);
    UnitBounds(cos);
    Decided(cos, pi, n, b, before, after, most, least);
  }

  /** The bounds for any n, at its place in the table. */
  lemma Settled(cos: real -> real, n: int)
    returns (b: real, before: real, after: real, most: real, least: real)
    requires Summed(cos) && 2 <= n <= 59
    ensures b == BOUNDARIES[59 - n] && Settles(cos, n, b, before, after, most, least)
  {
    if n >= 50 {
      b := BOUNDARIES_59[59 - n];
      before, after, most, least := StepsFrom59(cos, n);
    } else if n >= 40 {
      b := BOUNDARIES_49[49 - n];
      before, after, most, least := StepsFrom49(cos, n);
    } else if n >= 30 {
      b := BOUNDARIES_39[39 - n];
      before, after, most, least := StepsFrom39(cos, n);
    } else if n >= 20 {
      b := BOUNDARIES_29[29 - n];
      before, after, most, least := StepsFrom29(cos, n);
    } else if n >= 10 {
      b := BOUNDARIES_19[19 - n];
      before, after, most, least := StepsFrom19(cos, n);
    } else {
      b := BOUNDARIES_9[9 - n];
      before, after, most, least := StepsFrom9(cos, n);
    }
  }

  // ---------------------------------------------------------------------
  // The zones of a latitude are those of the law
  // ---------------------------------------------------------------------

  ghost predicate Rising(table: seq<real>)
  {
    forall i :: 0 < i < |table| ==> table[i - 1] <= table[i]
  }

  lemma {:induction false} ZonesByTable(table: seq<real>, zones: int, lat: real, i: nat)
    requires Rising(table) && i < |table|
    ensures ZonesFrom(table, zones, lat) >= zones - i <==> lat < table[i]
  {
    var rest := table[1..];
    assert forall k :: 0 < k < |rest| ==> rest[k - 1] == table[k] <= table[k + 1] == rest[k];
    if i > 0 {
      ZonesByTable(rest, zones - 1, lat, i - 1);
      FirstIsLeast(table, i);
    }
  }

  lemma {:induction false} FirstIsLeast(table: seq<real>, i: nat)
    requires Rising(table) && i < |table|
    ensures table[0] <= table[i]
  {
    if i > 0 {
      FirstIsLeast(table, i - 1);
    }
  }

  lemma JoinedRise(a: seq<real>, b: seq<real>)
    requires Rising(a) && Rising(b) && Meets(a, b)
    ensures Rising(a + b) && (a + b)[|a + b| - 1] == b[|b| - 1]
  {
  }

  /** `b` goes on where `a` ends. */
  ghost predicate Meets(a: seq<real>, b: seq<real>)
  {
    a != [] && b != [] && a[|a| - 1] <= b[0]
  }

  lemma AllRise(a: seq<real>, b: seq<real>, c: seq<real>, d: seq<real>, e: seq<real>, f: seq<real>)
    requires Rising(a) && Rising(b) && Rising(c) && Rising(d) && Rising(e) && Rising(f)
    requires Meets(a, b) && Meets(b, c) && Meets(c, d) && Meets(d, e) && Meets(e, f)
    ensures Rising(a + b + c + d + e + f)
  {
    JoinedRise(a, b);
    JoinedRise(a + b, c);
    JoinedRise(a + b + c, d);
    JoinedRise(a + b + c + d, e);
    JoinedRise(a + b + c + d + e, f);
  }

  lemma TableRises()
    ensures Rising(BOUNDARIES)
  {
    assert Rising(BOUNDARIES_59) && Rising(BOUNDARIES_49) && Rising(BOUNDARIES_39);
    assert Rising(BOUNDARIES_29) && Rising(BOUNDARIES_19) && Rising(BOUNDARIES_9);
    AllRise(BOUNDARIES_59, BOUNDARIES_49, BOUNDARIES_39, BOUNDARIES_29, BOUNDARIES_19, BOUNDARIES_9);
  }

  /** A latitude has at least n zones exactly below the table's latitude for n. */
  lemma ZonesBelow(lat: real, n: int)
    requires 2 <= n <= 59
    ensures LongitudeZones(lat) >= n <==> RealAbs(lat) < BOUNDARIES[59 - n]
  {
    TableRises();
    ZonesByTable(BOUNDARIES, 59, RealAbs(lat), 59 - n);
  }

  lemma SidesOf(cos: real -> real, pi: real, size: real, n: int, b: real)
    requires Falls(cos, pi) && n >= 2 && StepsAt(cos, pi, n, b) && 0.0 <= size <= 90.0
    ensures b <= size <= 90.0 - MARGIN ==> Law(cos, pi, size + MARGIN, n) < 0.0
    ensures MARGIN <= size < b ==> Law(cos, pi, size - MARGIN, n) > 0.0
  {
    if b <= size <= 90.0 - MARGIN {
      LawFalls(cos, pi, n, b + MARGIN, size + MARGIN);
    }
    if MARGIN <= size < b {
      LawFalls(cos, pi, n, size - MARGIN, b - MARGIN);
    }
  }

  /**
   The zone law: a latitude has at least n zones if the law holds the margin further from the
   equator, and only if it holds the margin nearer.
   */
  lemma ZonesByLaw(cos: real -> real, pi: real, lat: real, n: int)
    requires IsCosine(cos, pi) && LatitudeInRange(lat) && 2 <= n <= 59
    ensures RealAbs(lat) + MARGIN <= 90.0 && Law(cos, pi, RealAbs(lat) + MARGIN, n) >= 0.0 ==> LongitudeZones(lat) >= n
    ensures RealAbs(lat) >= MARGIN && Law(cos, pi, RealAbs(lat) - MARGIN, n) <= 0.0 ==> LongitudeZones(lat) < n
  {
    TableSteps(cos, pi, n);
    ZonesBelow(lat, n);
    SidesOf(cos, pi, RealAbs(lat), n, BOUNDARIES[59 - n]);
  }

  /** A latitude has exactly n zones by the law, further than the margin from any change. */
  ghost predicate HasZones(cos: real -> real, pi: real, lat: real, n: int)
  {
    && LatitudeInRange(lat) && 1 <= n <= 59
    && (n >= 2 ==> RealAbs(lat) + MARGIN <= 90.0 && Law(cos, pi, RealAbs(lat) + MARGIN, n) >= 0.0)
    && (n < 59 ==> RealAbs(lat) >= MARGIN && Law(cos, pi, RealAbs(lat) - MARGIN, n + 1) <= 0.0)
  }

  /** Between two changes of sign the zone count is exactly the law's. */
  lemma ZonesExactly(cos: real -> real, pi: real, lat: real, n: int)
    requires IsCosine(cos, pi) && HasZones(cos, pi, lat, n)
    ensures LongitudeZones(lat) == n
  {
    if n >= 2 {
      ZonesByLaw(cos, pi, lat, n);
    }
    if n < 59 {
      ZonesByLaw(cos, pi, lat, n + 1);
    }
  }

  /**
   A pair of frames whose longitudes were encoded on as many zones as the law gives their
   latitudes, the odd one on one zone less, decodes to the encoded point, or to nothing if
   the counts differ.
   */
  lemma AirborneByLaw(cos: real -> real, pi: real, p: Position, even: int, odd: int, fflag: bool)
    requires IsCosine(cos, pi) && LatitudeInRange(p.lat)
    requires HasZones(cos, pi, QuantisedLatitude(p.lat, false, false), even)
    requires HasZones(cos, pi, QuantisedLatitude(p.lat, true, false), odd)
    ensures
      var evenLon := Encode(InZones(p.lon, even, false));
      var oddLon := Encode(InZones(p.lon, if odd > 1 then odd - 1 else 1, false));
      var r := DecodeAirborne(EncodeLatitude(p, false, false), evenLon, EncodeLatitude(p, true, false), oddLon, fflag);
      if even != odd then r == None
      else r == Some(Position(QuantisedLatitude(p.lat, fflag, false),
                              WrapLongitude(QuantisedLongitude(p.lon, even, fflag, false))))
  {
    ZonesExactly(cos, pi, QuantisedLatitude(p.lat, false, false), even);
    ZonesExactly(cos, pi, QuantisedLatitude(p.lat, true, false), odd);
    AirborneRoundTrip(p, fflag);
  }
}
