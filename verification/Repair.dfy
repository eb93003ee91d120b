/** Error repair of received frames by the linearity of their parity. */
module Repair {
  import opened Crc
  import opened Powers

  type Frame = seq<bv8>

  const LONG_BYTES: nat := 14
  const SHORT_BYTES: nat := 7
  const LONG_BITS: nat := 112
  const SHORT_BITS: nat := 56
  const SHORT_OFFSET: nat := 56

  /** The bits of a byte, first transmitted first. */
  const BITS: seq<bv8> := [0x80, 0x40, 0x20, 0x10, 0x8, 0x4, 0x2, 0x1]

  // ---------------------------------------------------------------------
  // Flipping bits
  // ---------------------------------------------------------------------

  function Coefficients(b: bv8): Poly
  {
    PolyOf(b as bv32)
  }

  /** Bit `i` of a frame, in order of transmission. */
  predicate BitSet(msg: Frame, i: nat)
    requires i < 8 * |msg|
  {
    BitAt(msg, i / 8, i % 8)
  }

  predicate BitAt(msg: Frame, n: nat, k: nat)
    requires n < |msg| && k < 8
  {
    Coefficients(msg[n])[7 - k]
  }

  function Flip(msg: Frame, bit: nat): (flipped: Frame)
    requires bit < 8 * |msg|
    ensures |flipped| == |msg|
  {
    FlipAt(msg, bit / 8, bit % 8)
  }

  function FlipAt(msg: Frame, n: nat, k: nat): (flipped: Frame)
    requires n < |msg| && k < 8
    ensures |flipped| == |msg|
  {
    msg[n := msg[n] ^ BITS[k]]
  }

  lemma BitIsUnit(k: nat)
    requires k < 8
    ensures Coefficients(BITS[k]) == Unit(7 - k)
  {
    assert MASKS[7 - k] == BITS[k] as bv32;
    forall i | 0 <= i < 24 ensures Bit(BITS[k] as bv32, MASKS[i]) == (i == 7 - k) {
      MasksApart(7 - k, i);
    }
  }

  lemma MasksApart(i: nat, j: nat)
    requires i < 8 && j < 24
    ensures Bit(MASKS[i], MASKS[j]) == (i == j)
  {
  }

  lemma XorWidens(x: bv8, m: bv8)
    ensures (x ^ m) as bv32 == (x as bv32) ^ (m as bv32)
  {
  }

  lemma FlippedByte(x: bv8, k: nat)
    requires k < 8
    ensures Coefficients(x ^ BITS[k]) == Plus(Coefficients(x), Unit(7 - k))
  {
    XorWidens(x, BITS[k]);
    PolyOfXor(x as bv32, BITS[k] as bv32);
    BitIsUnit(k);
  }

  /** A flip changes that bit and no other. */
  lemma FlipsOnly(msg: Frame, bit: nat, i: nat)
    requires bit < 8 * |msg| && i < 8 * |msg|
    ensures BitSet(Flip(msg, bit), i) == (BitSet(msg, i) != (i == bit))
  {
    FlipsOnlyAt(msg, bit / 8, bit % 8, i / 8, i % 8);
  }

  lemma FlipsOnlyAt(msg: Frame, n: nat, k: nat, m: nat, j: nat)
    requires n < |msg| && k < 8 && m < |msg| && j < 8
    ensures BitAt(FlipAt(msg, n, k), m, j) == (BitAt(msg, m, j) != (n == m && k == j))
  {
    if n == m {
      FlippedCoefficient(msg[n], k, j);
    }
  }

  lemma FlippedCoefficient(x: bv8, k: nat, j: nat)
    requires k < 8 && j < 8
    ensures Coefficients(x ^ BITS[k])[7 - j] == (Coefficients(x)[7 - j] != (j == k))
  {
    FlippedByte(x, k);
  }

  lemma ByteIsItsBits(x: bv8, y: bv8)
    requires forall k :: 0 <= k < 8 ==> Coefficients(x)[k] == Coefficients(y)[k]
    ensures x == y
  {
    HighBitsClear(x);
    HighBitsClear(y);
    assert Coefficients(x) == Coefficients(y);
    PolyOfUnique(x as bv32, y as bv32);
    Widened(x, y);
  }

  lemma Widened(x: bv8, y: bv8)
    requires x as bv32 == y as bv32
    ensures x == y
  {
  }

  lemma HighBitsClear(x: bv8)
    ensures x as bv32 <= LOW24 && forall k :: 8 <= k < 24 ==> !Coefficients(x)[k]
  {
    ByteIsSmall(x);
    LowByte(x as bv32);
  }

  /** The places where two frames differ. */
  ghost function Differing(a: Frame, b: Frame): set<nat>
    requires |a| == |b|
  {
    set i: nat | i < 8 * |a| && BitSet(a, i) != BitSet(b, i)
  }

  lemma SameBits(a: Frame, b: Frame)
    requires |a| == |b| && Differing(a, b) == {}
    ensures a == b
  {
    forall n | 0 <= n < |a| ensures a[n] == b[n] {
      forall k | 0 <= k < 8 ensures Coefficients(a[n])[k] == Coefficients(b[n])[k] {
        var i := 8 * n + (7 - k);
        assert i !in Differing(a, b);
      }
      ByteIsItsBits(a[n], b[n]);
    }
  }

  /** Flipping a place where frames differ removes exactly that difference. */
  lemma FlipTowards(a: Frame, b: Frame, bit: nat)
    requires |a| == |b| && bit < 8 * |a|
    ensures Differing(Flip(a, bit), b) == if bit in Differing(a, b) then Differing(a, b) - {bit}
        else Differing(a, b) + {bit}
  {
    forall i: nat | i < 8 * |a| ensures BitSet(Flip(a, bit), i) == (BitSet(a, i) != (i == bit)) {
      FlipsOnly(a, bit, i);
    }
  }

  // ---------------------------------------------------------------------
  // Syndromes
  // ---------------------------------------------------------------------

  lemma SmallPower(k: nat)
    requires k < 8
    ensures Power(k) == Unit(k)
  {
    TimesXnShifts(Unit(0), k);
  }

  /** Flipping the bit of degree `d` adds that power, whatever the frame. */
  lemma FlipShiftsResidue(msg: Frame, bit: nat, d: nat)
    requires d + bit + 1 == 8 * |msg|
    ensures Residue(Flip(msg, bit)) == Plus(Residue(msg), Power(d))
  {
    FlipAtShifts(msg, bit / 8, bit % 8, d);
  }

  lemma {:induction false} FlipAtShifts(msg: Frame, n: nat, k: nat, d: nat)
    requires n < |msg| && k < 8 && d + 8 * n + k + 1 == 8 * |msg|
    ensures Residue(FlipAt(msg, n, k)) == Plus(Residue(msg), Power(d))
    decreases |msg|, 0
  {
    assert msg == msg[..|msg| - 1] + [msg[|msg| - 1]];
    FlipInAppended(msg[..|msg| - 1], msg[|msg| - 1], n, k, d);
  }

  lemma {:induction false} FlipInAppended(init: Frame, x: bv8, n: nat, k: nat, d: nat)
    requires n <= |init| && k < 8 && d + 8 * n + k == 8 * |init| + 7
    ensures Residue(FlipAt(init + [x], n, k)) == Plus(Residue(init + [x]), Power(d))
    decreases |init|, 1
  {
    FlipAtAppended(init, x, n, k);
    if n == |init| {
      FlipLast(init, x, k, d);
    } else {
      var other, e := FlipAt(init, n, k), d - 8;
      FlipAtShifts(init, n, k, e);
      FlipEarlier(init, x, other, e, d);
    }
  }

  lemma FlipAtAppended(init: Frame, x: bv8, n: nat, k: nat)
    requires n <= |init| && k < 8
    ensures FlipAt(init + [x], n, k) == if n == |init| then init + [x ^ BITS[k]] else FlipAt(init, n, k) + [x]
  {
  }

  lemma FlipLast(init: Frame, x: bv8, k: nat, d: nat)
    requires k < 8 && d == 7 - k
    ensures Residue(init + [x ^ BITS[k]]) == Plus(Residue(init + [x]), Power(d))
  {
    FlippedByte(x, k);
    SmallPower(d);
    ResidueAppends(init, x, Coefficients(x));
    ResidueAppends(init, x ^ BITS[k], Coefficients(x ^ BITS[k]));
    PlusFacts(TimesXn(Residue(init), 8), Coefficients(x), Unit(7 - k));
  }

  lemma FlipEarlier(init: Frame, x: bv8, other: Frame, d: nat, e: nat)
    requires Residue(other) == Plus(Residue(init), Power(d)) && e == d + 8
    ensures Residue(other + [x]) == Plus(Residue(init + [x]), Power(e))
  {
    ResidueAppends(init, x, Coefficients(x));
    ResidueAppends(other, x, Coefficients(x));
    TimesXnLinear(Residue(init), Power(d), 8);
    TimesXnAdds(Unit(0), d, 8);
    SwapLast(TimesXn(Residue(init), 8), Power(e), Coefficients(x));
  }

  lemma SwapLast(a: Poly, b: Poly, c: Poly)
    ensures Plus(Plus(a, b), c) == Plus(Plus(a, c), b)
  {
  }

  lemma PlusIsZero(p: Poly, q: Poly)
    ensures Plus(p, q) == Zero() <==> p == q
  {
    if Plus(p, q) == Zero() {
      assert forall i :: 0 <= i < 24 ==> Zero()[i] == (p[i] != q[i]);
    }
  }

  // ---------------------------------------------------------------------
  // Even and odd numbers of errors
  // ---------------------------------------------------------------------

  /** The parity of the number of terms below x^n. */
  function Odd(p: Poly, n: nat): bool
    requires n <= 24
  {
    n > 0 && (Odd(p, n - 1) != p[n - 1])
  }

  lemma {:induction false} OddPlus(p: Poly, q: Poly, n: nat)
    requires n <= 24
    ensures Odd(Plus(p, q), n) == (Odd(p, n) != Odd(q, n))
  {
    if n > 0 {
      OddPlus(p, q, n - 1);
    }
  }

  lemma {:induction false} OddShifted(p: Poly, n: nat)
    requires n < 24
    ensures Odd(Shifted(p, 1), n + 1) == Odd(p, n)
  {
    if n > 0 {
      OddShifted(p, n - 1);
    }
  }

  /** The generator has an even number of terms, so multiplication by x keeps the parity. */
  lemma OddTimesX(p: Poly)
    ensures Odd(TimesX(p), 24) == Odd(p, 24)
  {
    OddShifted(p, 23);
    if p[23] {
      assert TimesX(p) == Plus(Shifted(p, 1), PolyOf(GENERATOR));
      OddPlus(Shifted(p, 1), PolyOf(GENERATOR), 24);
      OddGenerator(24);
    } else {
      assert TimesX(p) == Shifted(p, 1);
    }
  }

  lemma GeneratorTerms(i: nat)
    requires i < 24
    ensures PolyOf(GENERATOR)[i] == (i == 0 || i == 3 || i == 10 || i >= 12)
  {
  }

  lemma {:induction false} OddGenerator(n: nat)
    requires n <= 24
    ensures Odd(PolyOf(GENERATOR), n) == ((1 <= n <= 3) || n == 11 || (n >= 12 && n % 2 == 0))
  {
    if n > 0 {
      OddGenerator(n - 1);
      GeneratorTerms(n - 1);
    }
  }

  lemma {:induction false} OddPower(n: nat)
    ensures Odd(Power(n), 24)
  {
    if n == 0 {
      OddUnit(24);
    } else {
      OddPower(n - 1);
      OddTimesX(Power(n - 1));
    }
  }

  lemma {:induction false} OddUnit(n: nat)
    requires n <= 24
    ensures Odd(Unit(0), n) == (n > 0)
  {
    if n > 0 {
      OddUnit(n - 1);
    }
  }

  /** The syndrome of a double error is never that of a single one. */
  lemma DoubleIsNotSingle(a: nat, b: nat, c: nat)
    ensures Plus(Power(a), Power(b)) != Power(c)
  {
    OddPower(a);
    OddPower(b);
    OddPower(c);
    OddPlus(Power(a), Power(b), 24);
  }

  // ---------------------------------------------------------------------
  // Frames near a valid one
  // ---------------------------------------------------------------------

  lemma FlippedDiffers(a: Frame, bit: nat)
    requires bit < 8 * |a|
    ensures Differing(a, Flip(a, bit)) == {bit}
  {
    FlipTowards(a, a, bit);
    assert Differing(a, Flip(a, bit)) == Differing(Flip(a, bit), a);
  }

  lemma TwiceFlippedDiffers(a: Frame, b1: nat, b2: nat)
    requires b1 < b2 < 8 * |a|
    ensures Differing(a, Flip(Flip(a, b1), b2)) == {b1, b2}
  {
    FlipTowards(a, a, b1);
    FlipTowards(Flip(a, b1), a, b2);
    assert Differing(a, Flip(Flip(a, b1), b2)) == Differing(Flip(Flip(a, b1), b2), a);
  }

  /** The syndromes of a single and of a double error in a long frame. */
  function BitPower(bit: nat): Poly
    requires bit < LONG_BITS
  {
    Power(111 - bit)
  }

  function PairPower(b1: nat, b2: nat): Poly
    requires b1 < LONG_BITS && b2 < LONG_BITS
  {
    Plus(BitPower(b1), BitPower(b2))
  }

  lemma OneAway(a: Frame, m: Frame) returns (bit: nat)
    requires |a| == |m| && |Differing(a, m)| == 1
    ensures bit < 8 * |a| && m == Flip(a, bit)
  {
    bit :| bit in Differing(a, m);
    Only(Differing(a, m), bit);
    FlipTowards(a, m, bit);
    SameBits(Flip(a, bit), m);
  }

  lemma TwoAway(a: Frame, m: Frame) returns (b1: nat, b2: nat)
    requires |a| == |m| && |Differing(a, m)| == 2
    ensures b1 < b2 < 8 * |a| && m == Flip(Flip(a, b1), b2)
  {
    var x :| x in Differing(a, m);
    assert |Differing(a, m) - {x}| == 1;
    var y :| y in Differing(a, m) - {x};
    OnlyTwo(Differing(a, m), x, y);
    b1, b2 := if x < y then x else y, if x < y then y else x;
    FlipTowards(a, m, b1);
    FlipTowards(Flip(a, b1), m, b2);
    SameBits(Flip(Flip(a, b1), b2), m);
  }

  lemma Only(s: set<nat>, x: nat)
    requires |s| == 1 && x in s
    ensures s == {x}
  {
    assert |s - {x}| == 0;
  }

  lemma OnlyTwo(s: set<nat>, x: nat, y: nat)
    requires |s| == 2 && x in s && y in s && x != y
    ensures s == {x, y}
  {
    Only(s - {x}, y);
    assert s == (s - {x}) + {x};
  }

  lemma BitRepairs(a: Frame, bit: nat, out: Frame)
    requires |a| == LONG_BYTES && bit < LONG_BITS && out == Flip(a, bit)
    ensures Residue(out) == Plus(Residue(a), BitPower(bit))
    ensures Residue(out) == Zero() <==> Residue(a) == BitPower(bit)
  {
    var d := 111 - bit;
    DegreeRepairs(a, bit, out, d);
  }

  lemma DegreeRepairs(a: Frame, bit: nat, out: Frame, d: nat)
    requires d + bit + 1 == 8 * |a| && out == Flip(a, bit)
    ensures Residue(out) == Plus(Residue(a), Power(d))
    ensures Residue(out) == Zero() <==> Residue(a) == Power(d)
  {
    FlipShiftsResidue(a, bit, d);
    PlusIsZero(Residue(a), Power(d));
  }

  /** A long frame two flips from a valid one carries the syndrome of that pair. */
  lemma PairRepairs(a: Frame, b1: nat, b2: nat, one: Frame, two: Frame)
    requires |a| == LONG_BYTES && b1 < b2 < LONG_BITS && one == Flip(a, b1) && two == Flip(one, b2)
    ensures Residue(two) == Zero() <==> Residue(a) == PairPower(b1, b2)
  {
    BitRepairs(a, b1, one);
    BitRepairs(one, b2, two);
    PlusFacts(Residue(a), BitPower(b1), BitPower(b2));
    PlusIsZero(Residue(a), PairPower(b1, b2));
  }

  // ---------------------------------------------------------------------
  // The outcome of a repair at full width
  // ---------------------------------------------------------------------

  /** A repair of `k` bits: the frame then passes, and exactly `k` bits differ. */
  ghost predicate Mended(input: Frame, k: nat, out: Frame)
  {
    |out| == |input| && Residue(out) == Zero() && |Differing(input, out)| == k
  }

  /** Every frame that passes differs in at least `k` bits. */
  ghost predicate NoneWithin(input: Frame, k: nat)
  {
    forall m: Frame | |m| == |input| && Residue(m) == Zero() :: |Differing(input, m)| >= k
  }

  ghost predicate LongOutcome(input: Frame, maxErrors: nat, k: int, out: Frame)
  {
    if k >= 0 then k <= maxErrors && k <= 2 && Mended(input, k, out) && NoneWithin(input, k)
    else k == -1 && out == input && NoneWithin(input, if maxErrors < 2 then maxErrors + 1 else 3)
  }

  predicate NoSingle(residue: Poly)
  {
    forall bit :: 0 <= bit < LONG_BITS ==> residue != BitPower(bit)
  }

  predicate NoPair(residue: Poly)
  {
    forall b1, b2 :: 0 <= b1 < b2 < LONG_BITS ==> residue != PairPower(b1, b2)
  }

  /** What the syndrome rules out, no frame can be. */
  lemma RuledOut(input: Frame, k: nat)
    requires |input| == LONG_BYTES && k <= 3
    requires k >= 1 ==> Residue(input) != Zero()
    requires k >= 2 ==> NoSingle(Residue(input))
    requires k >= 3 ==> NoPair(Residue(input))
    ensures NoneWithin(input, k)
  {
    forall m: Frame | |m| == |input| && Residue(m) == Zero() ensures |Differing(input, m)| >= k {
      if |Differing(input, m)| == 0 {
        SameBits(input, m);
      } else if |Differing(input, m)| == 1 {
        var bit := OneAway(input, m);
        BitRepairs(input, bit, m);
      } else if |Differing(input, m)| == 2 {
        var b1, b2 := TwoAway(input, m);
        PairRepairs(input, b1, b2, Flip(input, b1), m);
      }
    }
  }

  // ---------------------------------------------------------------------
  // Tables of syndromes
  // ---------------------------------------------------------------------

  ghost predicate Syndromes(single: seq<bv32>)
  {
    |single| == LONG_BITS && forall i :: 0 <= i < LONG_BITS ==> single[i] <= LOW24 && PolyOf(single[i]) == BitPower(i)
  }

  function Zeros(n: nat): (zeros: Frame)
    ensures |zeros| == n
  {
    seq(n, i => 0)
  }

  lemma {:induction false} ZerosPass(n: nat)
    ensures Residue(Zeros(n)) == Zero()
  {
    if n > 0 {
      ZerosPass(n - 1);
      assert Zeros(n)[..n - 1] == Zeros(n - 1);
      TimesXnOfZero(8);
      ZeroWord();
    }
  }

  lemma ZeroXor(m: bv8)
    ensures 0 ^ m == m
  {
  }

  method SingleBitSyndromes(table: seq<bv32>) returns (single: seq<bv32>)
    requires Tabulated(table)
    ensures Syndromes(single)
  {
    single := [];
    for bit := 0 to LONG_BITS
      invariant |single| == bit
      invariant forall i :: 0 <= i < bit ==> single[i] <= LOW24 && PolyOf(single[i]) == BitPower(i)
    {
      var s := SyndromeOf(bit, table);
      single := single + [s];
    }
  }

  method SyndromeOf(bit: nat, table: seq<bv32>) returns (s: bv32)
    requires Tabulated(table) && bit < LONG_BITS
    ensures s <= LOW24 && PolyOf(s) == BitPower(bit)
  {
    var msg := Zeros(LONG_BYTES)[bit / 8 := BITS[bit % 8]];
    s := Crc24Parity(msg, table);
    OneBitSet(bit, msg);
  }

  lemma OneBitSet(bit: nat, msg: Frame)
    requires bit < LONG_BITS && msg == Zeros(LONG_BYTES)[bit / 8 := BITS[bit % 8]]
    ensures Residue(msg) == BitPower(bit)
  {
    ZeroXor(BITS[bit % 8]);
    ZerosPass(LONG_BYTES);
    var zeros := Zeros(LONG_BYTES);
    assert msg == Flip(zeros, bit);
    BitRepairs(zeros, bit, msg);
    PlusFacts(Zero(), BitPower(bit), Zero());
  }

  /** A syndrome as a table key. */
  datatype Key = Key(word: bv32)

  /** The pair is listed, or a pair before it with the same syndrome is. */
  ghost predicate Listed(pairs: map<Key, (nat, nat)>, b1: nat, b2: nat)
    requires b1 < LONG_BITS && b2 < LONG_BITS
  {
    exists s :: s in pairs && PolyOf(s.word) == PairPower(b1, b2)
                && (pairs[s].0 < b1 || (pairs[s].0 == b1 && pairs[s].1 <= b2))
  }

  ghost predicate Genuine(pairs: map<Key, (nat, nat)>)
  {
    forall s :: s in pairs ==>
      s.word <= LOW24 && pairs[s].0 < pairs[s].1 < LONG_BITS && PolyOf(s.word) == PairPower(pairs[s].0, pairs[s].1)
  }

  ghost predicate AllListed(pairs: map<Key, (nat, nat)>, n1: nat, n2: nat)
    requires n1 <= LONG_BITS
  {
    forall b1, b2 :: 0 <= b1 < b2 < LONG_BITS && (b1 < n1 || (b1 == n1 && b2 < n2)) ==> Listed(pairs, b1, b2)
  }

  ghost predicate InOrder(pairs: map<Key, (nat, nat)>, n1: nat, n2: nat)
  {
    forall s :: s in pairs ==> pairs[s].0 < n1 || (pairs[s].0 == n1 && pairs[s].1 < n2)
  }

  method TwoBitSyndromes(single: seq<bv32>) returns (pairs: map<Key, (nat, nat)>)
    requires Syndromes(single)
    ensures Genuine(pairs) && AllListed(pairs, LONG_BITS, 0)
  {
    pairs := map[];
    for b1 := 0 to LONG_BITS
      invariant Genuine(pairs) && AllListed(pairs, b1, 0) && InOrder(pairs, b1, 0)
    {
      for b2 := b1 + 1 to LONG_BITS
        invariant Genuine(pairs) && AllListed(pairs, b1, b2) && InOrder(pairs, b1, b2)
      {
        var s := XorWords(single[b1], single[b2]);
        pairs := Insert(pairs, Key(s), b1, b2);
      }
    }
  }

  method XorWords(a: bv32, b: bv32) returns (s: bv32)
    requires a <= LOW24 && b <= LOW24
    ensures s <= LOW24 && PolyOf(s) == Plus(PolyOf(a), PolyOf(b))
  {
    XorLow24(a, b);
    PolyOfXor(a, b);
    s := a ^ b;
  }

  /** The first pair to claim a syndrome keeps it. */
  method Insert(pairs: map<Key, (nat, nat)>, s: Key, b1: nat, b2: nat) returns (more: map<Key, (nat, nat)>)
    requires b1 < b2 < LONG_BITS && s.word <= LOW24 && PolyOf(s.word) == PairPower(b1, b2)
    requires Genuine(pairs) && AllListed(pairs, b1, b2) && InOrder(pairs, b1, b2)
    ensures InOrder(more, b1, b2 + 1)
    ensures Genuine(more) && AllListed(more, b1, b2 + 1)
  {
    more := pairs;
    if s !in pairs {
      more := pairs[s := (b1, b2)];
      assert more[s] == (b1, b2);
      assert forall t :: t in more && t != s ==> t in pairs && more[t] == pairs[t];
    }
    assert s in more && PolyOf(s.word) == PairPower(b1, b2);
    forall c1, c2 | 0 <= c1 < c2 < LONG_BITS && (c1 < b1 || (c1 == b1 && c2 < b2)) ensures Listed(more, c1, c2) {
      assert Listed(pairs, c1, c2);
      var t :| t in pairs && PolyOf(t.word) == PairPower(c1, c2)
          && (pairs[t].0 < c1 || (pairs[t].0 == c1 && pairs[t].1 <= c2));
      assert more[t] == pairs[t];
    }
  }

  // ---------------------------------------------------------------------
  // Repair at full width
  // ---------------------------------------------------------------------

  lemma WordsSame(a: bv32, b: bv32)
    requires a <= LOW24 && b <= LOW24
    ensures a == b <==> PolyOf(a) == PolyOf(b)
  {
    if PolyOf(a) == PolyOf(b) {
      PolyOfUnique(a, b);
    }
  }

  lemma ZeroTest(s: bv32)
    requires s <= LOW24
    ensures s == 0 <==> PolyOf(s) == Zero()
  {
    ZeroWord();
    WordsSame(s, 0);
  }

  datatype Tables = Tables(bytes: seq<bv32>, single: seq<bv32>, pairs: map<Key, (nat, nat)>)
  {
    ghost predicate Valid()
    {
      Tabulated(bytes) && Syndromes(single) && Genuine(pairs) && AllListed(pairs, LONG_BITS, 0)
    }
  }

  method BuildTables() returns (t: Tables)
    ensures t.Valid()
  {
    var bytes := BuildTable();
    var single := SingleBitSyndromes(bytes);
    var pairs := TwoBitSyndromes(single);
    t := Tables(bytes, single, pairs);
  }

  /** The first bit whose syndrome is `s`. */
  method FindSingle(single: seq<bv32>, s: bv32) returns (found: bool, bit: nat)
    requires Syndromes(single) && s <= LOW24
    ensures if found then bit < LONG_BITS && PolyOf(s) == BitPower(bit) else NoSingle(PolyOf(s))
  {
    for i := 0 to LONG_BITS
      invariant forall j :: 0 <= j < i ==> PolyOf(s) != BitPower(j)
    {
      WordsSame(single[i], s);
      if single[i] == s {
        return true, i;
      }
    }
    found, bit := false, 0;
  }

  /** The pair listed for the syndrome `s`. */
  method FindPair(pairs: map<Key, (nat, nat)>, s: bv32) returns (found: bool, b1: nat, b2: nat)
    requires Genuine(pairs) && AllListed(pairs, LONG_BITS, 0) && s <= LOW24
    ensures if found then b1 < b2 < LONG_BITS && PolyOf(s) == PairPower(b1, b2) else NoPair(PolyOf(s))
  {
    if Key(s) in pairs {
      var pair := pairs[Key(s)];
      return true, pair.0, pair.1;
    }
    forall c1, c2 | 0 <= c1 < c2 < LONG_BITS ensures PolyOf(s) != PairPower(c1, c2) {
      assert Listed(pairs, c1, c2);
      var t :| t in pairs && PolyOf(t.word) == PairPower(c1, c2);
      WordsSame(s, t.word);
    }
    found, b1, b2 := false, 0, 0;
  }

  /**
   Repair at 112 bits: a repaired frame passes and differs in exactly as many
   bits as reported, and no frame that passes is nearer.
   */
  method CorrectLong(input: Frame, maxErrors: nat, t: Tables) returns (k: int, out: Frame)
    requires |input| == LONG_BYTES && t.Valid()
    ensures LongOutcome(input, maxErrors, k, out)
  {
    var s := Crc24Parity(input, t.bytes);
    ZeroTest(s);
    if s == 0 {
      assert Differing(input, input) == {};
      return 0, input;
    }
    RuledOut(input, 1);
    if maxErrors >= 1 {
      var found, bit := FindSingle(t.single, s);
      if found {
        out := Flip(input, bit);
        BitRepairs(input, bit, out);
        FlippedDiffers(input, bit);
        return 1, out;
      }
      RuledOut(input, 2);
    }
    if maxErrors >= 2 {
      var found, b1, b2 := FindPair(t.pairs, s);
      if found {
        out := Flip(Flip(input, b1), b2);
        PairRepairs(input, b1, b2, Flip(input, b1), out);
        TwiceFlippedDiffers(input, b1, b2);
        return 2, out;
      }
      RuledOut(input, 3);
    }
    return -1, input;
  }

  lemma PowerIsNotZero(n: nat)
    ensures Power(n) != Zero()
  {
    TimesXnOfZero(n);
    assert Unit(0)[0] && !Zero()[0];
    if Power(n) == Zero() {
      TimesXnInjective(Unit(0), Zero(), n);
    }
  }

  lemma FlipBack(a: Frame, bit: nat)
    requires bit < 8 * |a|
    ensures Flip(Flip(a, bit), bit) == a
  {
    FlippedDiffers(a, bit);
    FlipTowards(Flip(a, bit), a, bit);
    assert Differing(Flip(a, bit), a) == Differing(a, Flip(a, bit));
    SameBits(Flip(Flip(a, bit), bit), a);
  }

  lemma BitPowersDistinct(b1: nat, b2: nat)
    requires b1 < LONG_BITS && b2 < LONG_BITS && BitPower(b1) == BitPower(b2)
    ensures b1 == b2
  {
    if b1 < b2 {
      PowersDistinct(111 - b2, 111 - b1);
    } else if b2 < b1 {
      PowersDistinct(111 - b1, 111 - b2);
    }
  }

  lemma Damaged(frame: Frame, bit: nat, damaged: Frame)
    requires |frame| == LONG_BYTES && Residue(frame) == Zero() && bit < LONG_BITS && damaged == Flip(frame, bit)
    ensures Residue(damaged) == BitPower(bit) && Residue(damaged) != Zero()
    ensures |Differing(damaged, frame)| == 1
  {
    BitRepairs(frame, bit, damaged);
    PlusFacts(Zero(), BitPower(bit), Zero());
    PowerIsNotZero(111 - bit);
    FlippedDiffers(frame, bit);
    assert Differing(damaged, frame) == Differing(frame, damaged);
  }

  /** Nothing is repaired further away than a frame that passes. */
  lemma NoFartherThan(input: Frame, frame: Frame, maxErrors: nat, k: int, out: Frame)
    requires |frame| == |input| && Residue(frame) == Zero() && LongOutcome(input, maxErrors, k, out)
    ensures k <= |Differing(input, frame)|
    ensures |Differing(input, frame)| <= maxErrors && |Differing(input, frame)| <= 2 ==> k >= 0
    ensures Residue(input) != Zero() ==> k != 0
  {
    assert |Differing(input, frame)| >= if k >= 0 then k else if maxErrors < 2 then maxErrors + 1 else 3;
    if k == 0 {
      SameBits(input, out);
    }
  }

  /** One flipped bit of a valid long frame is undone exactly. */
  lemma LongSingleRestored(frame: Frame, bit: nat, damaged: Frame, maxErrors: nat, k: int, out: Frame)
    requires |frame| == LONG_BYTES && Residue(frame) == Zero() && bit < LONG_BITS && maxErrors >= 1
    requires damaged == Flip(frame, bit) && LongOutcome(damaged, maxErrors, k, out)
    ensures k == 1 && out == frame
  {
    Damaged(frame, bit, damaged);
    NoFartherThan(damaged, frame, maxErrors, k, out);
    var j := OneAway(damaged, out);
    SameSyndrome(damaged, bit, j, out);
    FlipBack(frame, bit);
  }

  lemma SameSyndrome(damaged: Frame, bit: nat, j: nat, out: Frame)
    requires |damaged| == LONG_BYTES && bit < LONG_BITS && j < LONG_BITS && out == Flip(damaged, j)
    requires Residue(damaged) == BitPower(bit) && Residue(out) == Zero()
    ensures j == bit
  {
    BitRepairs(damaged, j, out);
    BitPowersDistinct(bit, j);
  }

  lemma DoublyDamaged(frame: Frame, b1: nat, b2: nat, one: Frame, damaged: Frame)
    requires |frame| == LONG_BYTES && Residue(frame) == Zero() && b1 < b2 < LONG_BITS
    requires one == Flip(frame, b1) && damaged == Flip(one, b2)
    ensures Residue(damaged) == PairPower(b1, b2) && Residue(damaged) != Zero()
    ensures |Differing(damaged, frame)| == 2
  {
    Damaged(frame, b1, one);
    BitRepairs(one, b2, damaged);
    if PairPower(b1, b2) == Zero() {
      PlusIsZero(BitPower(b1), BitPower(b2));
      BitPowersDistinct(b1, b2);
    }
    TwiceFlippedDiffers(frame, b1, b2);
    assert Differing(damaged, frame) == Differing(frame, damaged);
  }

  /** Two flipped bits of a valid long frame are undone exactly, or given up if two repairs are too many. */
  lemma LongDoubleRestored(frame: Frame, b1: nat, b2: nat, damaged: Frame, maxErrors: nat, k: int, out: Frame)
    requires |frame| == LONG_BYTES && Residue(frame) == Zero() && b1 < b2 < LONG_BITS
    requires damaged == Flip(Flip(frame, b1), b2) && LongOutcome(damaged, maxErrors, k, out)
    ensures if maxErrors >= 2 then k == 2 && out == frame else k == -1 && out == damaged
  {
    DoublyDamaged(frame, b1, b2, Flip(frame, b1), damaged);
    NoFartherThan(damaged, frame, maxErrors, k, out);
    if k == 1 {
      var j := OneAway(damaged, out);
      NotSingle(damaged, b1, b2, j, out);
    } else if k == 2 {
      var c1, c2 := TwoAway(damaged, out);
      SamePair(damaged, b1, b2, c1, c2, Flip(damaged, c1), out);
      FlipsBack(frame, b1, b2, damaged, Flip(damaged, b1), out);
    }
  }

  lemma NotSingle(damaged: Frame, b1: nat, b2: nat, j: nat, out: Frame)
    requires |damaged| == LONG_BYTES && b1 < b2 < LONG_BITS && j < LONG_BITS && out == Flip(damaged, j)
    requires Residue(damaged) == PairPower(b1, b2)
    ensures Residue(out) != Zero()
  {
    BitRepairs(damaged, j, out);
    PairIsNoBit(b1, b2, j, PairPower(b1, b2));
  }

  lemma PairIsNoBit(b1: nat, b2: nat, j: nat, pair: Poly)
    requires b1 < LONG_BITS && b2 < LONG_BITS && j < LONG_BITS && pair == PairPower(b1, b2)
    ensures pair != BitPower(j)
  {
    DoubleIsNotSingle(111 - b1, 111 - b2, 111 - j);
  }

  lemma SamePair(damaged: Frame, b1: nat, b2: nat, c1: nat, c2: nat, one: Frame, out: Frame)
    requires |damaged| == LONG_BYTES && b1 < b2 < LONG_BITS && c1 < c2 < LONG_BITS
    requires one == Flip(damaged, c1) && out == Flip(one, c2)
    requires Residue(damaged) == PairPower(b1, b2) && Residue(out) == Zero()
    ensures b1 == c1 && b2 == c2
  {
    PairRepairs(damaged, c1, c2, one, out);
    PairPowersDistinct(b1, b2, c1, c2);
  }

  /** No two pairs of bits of a long frame share a syndrome. */
  lemma PairPowersDistinct(b1: nat, b2: nat, c1: nat, c2: nat)
    requires b1 < b2 < LONG_BITS && c1 < c2 < LONG_BITS && PairPower(b1, b2) == PairPower(c1, c2)
    ensures b1 == c1 && b2 == c2
  {
    PlusFacts(BitPower(b1), BitPower(b2), Zero());
    PlusFacts(BitPower(c1), BitPower(c2), Zero());
    PairsDistinct(111 - b2, 111 - b1, 111 - c2, 111 - c1);
  }

  lemma FlipsBack(frame: Frame, b1: nat, b2: nat, damaged: Frame, one: Frame, out: Frame)
    requires b1 < b2 < 8 * |frame| && damaged == Flip(Flip(frame, b1), b2)
    requires one == Flip(damaged, b1) && out == Flip(one, b2)
    ensures out == frame
  {
    TwiceFlippedDiffers(frame, b1, b2);
    assert Differing(damaged, frame) == Differing(frame, damaged);
    FlipsReach(damaged, frame, b1, b2, one, out);
  }

  lemma FlipsReach(a: Frame, m: Frame, b1: nat, b2: nat, one: Frame, two: Frame)
    requires |a| == |m| && b1 < b2 < 8 * |a| && Differing(a, m) == {b1, b2} && one == Flip(a, b1)
    requires two == Flip(one, b2)
    ensures two == m
  {
    FlipTowards(a, m, b1);
    FlipTowards(one, m, b2);
    SameBits(two, m);
  }
}
