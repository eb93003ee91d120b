/**
 The powers of x modulo the generator, over the length of a message: no two are
 the same, and no two of them sum to the sum of another two.
 */
module Powers {
  import opened Crc
  import opened PowerTable

  lemma OneWord()
    ensures PolyOf(1) == Unit(0)
  {
  }

  lemma FirstPower()
    ensures PolyOf(2) == Power(1)
  {
    OneWord();
    NextWordTimesX(1);
    assert NextWord(1) == 2;
  }

  lemma WordOfPower(a: nat) returns (word: bv32)
    requires 1 <= a <= 112
    ensures word <= LOW24 && PolyOf(word) == Power(a) && IsPower(word)
  {
    TableHolds();
    FirstPower();
    word := WordWithin(InTable, 2, 1, 112, 0xE4D7A8, a);
  }

  lemma OneIsNoPower()
    ensures !IsPower(1)
  {
  }

  lemma LaterPowerIsNotOne(d: nat)
    requires 1 <= d < 112
    ensures Power(d) != Unit(0)
  {
    var word := WordOfPower(d);
    OneWord();
    OneIsNoPower();
    if Power(d) == Unit(0) {
      PolyOfUnique(word, 1);
    }
  }

  /** Any two of the first 112 powers differ, so single-bit errors are told apart. */
  lemma PowersDistinct(a: nat, b: nat)
    requires a < b < 112
    ensures Power(a) != Power(b)
  {
    LaterPowerIsNotOne(b - a);
    if Power(a) == Power(b) {
      PowersCancel(a, b - a, b);
    }
  }

  lemma PowersCancel(a: nat, d: nat, b: nat)
    requires b == d + a && Power(a) == Power(b)
    ensures Power(d) == Unit(0)
  {
    TimesXnAdds(Unit(0), d, a);
    TimesXnInjective(Unit(0), Power(d), a);
  }

  lemma SumWithOne(v: bv32, u: bv32, sum: bv32)
    requires v <= LOW24 && u <= LOW24 && sum == v ^ u ^ 1
    ensures sum <= LOW24 && PolyOf(sum) == Plus(Plus(PolyOf(v), PolyOf(u)), Unit(0))
  {
    XorLow24(v, u);
    XorLow24(v ^ u, 1);
    PolyOfXor(v, u);
    PolyOfXor(v ^ u, 1);
    OneWord();
  }

  lemma LonelyWord(b: nat) returns (u: bv32)
    requires 1 <= b <= 112
    ensures u <= LOW24 && PolyOf(u) == Power(b) && Lonely(u, b)
  {
    LonelyHolds();
    FirstPower();
    u := WordWithin(Lonely, 2, 1, 112, 0xE4D7A8, b);
  }

  /** One and three later powers never sum to zero. */
  lemma NoFourTerms(a: nat, b: nat, c: nat)
    requires 1 <= a <= 112 && 1 <= b <= 112 && 1 <= c <= 112
    ensures Plus(Plus(Power(a), Power(b)), Unit(0)) != Power(c)
  {
    var v := WordOfPower(a);
    var u := LonelyWord(b);
    var w := WordOfPower(c);
    NotTheSum(v, u, w, v ^ u ^ 1);
  }

  lemma NotTheSum(v: bv32, u: bv32, w: bv32, sum: bv32)
    requires IsPower(v) && !SumToPower(v, u) && IsPower(w) && sum == v ^ u ^ 1
    requires v <= LOW24 && u <= LOW24 && w <= LOW24
    ensures Plus(Plus(PolyOf(v), PolyOf(u)), Unit(0)) != PolyOf(w)
  {
    SumWithOne(v, u, sum);
    if PolyOf(sum) == PolyOf(w) {
      PolyOfUnique(sum, w);
    }
  }

  /** Nor do two powers sum to two that come after the first of them. */
  lemma FourTerms(m: nat, x: nat, y: nat, z: nat)
    requires m < x <= m + 112 && m < y <= m + 112 && m < z <= m + 112
    ensures Plus(Power(m), Power(x)) != Plus(Power(y), Power(z))
  {
    NoFourTerms(y - m, z - m, x - m);
    var p, q, r := Power(x - m), Power(y - m), Power(z - m);
    RaisedBy(m, x - m, x);
    RaisedBy(m, y - m, y);
    RaisedBy(m, z - m, z);
    TimesXnLinear(Unit(0), p, m);
    TimesXnLinear(q, r, m);
    if TimesXn(Plus(Unit(0), p), m) == TimesXn(Plus(q, r), m) {
      TimesXnInjective(Plus(Unit(0), p), Plus(q, r), m);
      MoveOne(p, q, r);
    }
  }

  lemma RaisedBy(m: nat, n: nat, sum: nat)
    requires sum == n + m
    ensures TimesXn(Power(n), m) == Power(sum)
  {
    TimesXnAdds(Unit(0), n, m);
  }

  lemma MoveOne(p: Poly, q: Poly, r: Poly)
    requires Plus(Unit(0), p) == Plus(q, r)
    ensures Plus(Plus(q, r), Unit(0)) == p
  {
    PlusFacts(Unit(0), p, Unit(0));
    PlusFacts(p, Unit(0), Unit(0));
  }

  /** Any two pairs of the first 112 powers have different sums, so double errors are told apart. */
  lemma PairsDistinct(a: nat, b: nat, c: nat, d: nat)
    requires a < b < 112 && c < d < 112 && Plus(Power(a), Power(b)) == Plus(Power(c), Power(d))
    ensures a == c && b == d
  {
    if a < c {
      FourTerms(a, b, c, d);
    } else if c < a {
      FourTerms(c, d, a, b);
    } else {
      SumCancels(Power(a), Power(b), Power(d));
      if b < d {
        PowersDistinct(b, d);
      } else if d < b {
        PowersDistinct(d, b);
      }
    }
  }

  lemma SumCancels(p: Poly, q: Poly, r: Poly)
    requires Plus(p, q) == Plus(p, r)
    ensures q == r
  {
    PlusFacts(p, p, q);
    PlusFacts(p, p, r);
    PlusFacts(q, Zero(), Zero());
    PlusFacts(r, Zero(), Zero());
  }
}
