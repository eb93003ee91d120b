/**
 The Mode S parity check: table-driven on bytes, and the polynomial division over
 GF(2) that it stands for.  A word's low 24 bits are the coefficients of a polynomial.
 */
module Crc {
  const GENERATOR: bv32 := 0xFFF409
  const LOW24: bv32 := 0x00FF_FFFF

  /** The words of a single set bit, by position. */
  const MASKS: seq<bv32> := [
    0x1, 0x2, 0x4, 0x8, 0x10, 0x20, 0x40, 0x80, 0x100, 0x200, 0x400, 0x800,
    0x1000, 0x2000, 0x4000, 0x8000, 0x10000, 0x20000, 0x40000, 0x80000, 0x100000, 0x200000, 0x400000, 0x800000]

  // ---------------------------------------------------------------------
  // Words, one bit at a time
  // ---------------------------------------------------------------------

  predicate Single(m: bv32) { m != 0 && m & (m - 1) == 0 }

  predicate Bit(w: bv32, m: bv32) { w & m != 0 }

  lemma BitXor(a: bv32, b: bv32, m: bv32)
    requires Single(m)
    ensures Bit(a ^ b, m) == (Bit(a, m) != Bit(b, m))
  {
  }

  lemma BitAnd(a: bv32, b: bv32, m: bv32)
    requires Single(m)
    ensures Bit(a & b, m) == (Bit(a, m) && Bit(b, m))
  {
  }

  lemma BitUp(w: bv32, m: bv32)
    requires Single(m)
    ensures Bit(w << 1, m) == Bit(w, m >> 1)
  {
  }

  lemma BitUp8(w: bv32, m: bv32)
    requires Single(m)
    ensures Bit(w << 8, m) == Bit(w, m >> 8)
  {
  }

  lemma BitUp16(w: bv32, m: bv32)
    requires Single(m)
    ensures Bit(w << 16, m) == Bit(w, m >> 16)
  {
  }

  lemma MaskIsSingle(i: nat)
    requires i < 24
    ensures Single(MASKS[i])
  {
    if i < 8 {
    } else if i < 16 {
    } else {
    }
  }

  lemma MaskDown(i: nat)
    requires i < 24
    ensures MASKS[i] >> 1 == if i < 1 then 0 else MASKS[i - 1]
    ensures MASKS[i] >> 8 == if i < 8 then 0 else MASKS[i - 8]
    ensures MASKS[i] >> 16 == if i < 16 then 0 else MASKS[i - 16]
  {
  }

  // ---------------------------------------------------------------------
  // Polynomials of degree below 24
  // ---------------------------------------------------------------------

  type Poly = p: seq<bool> | |p| == 24 witness seq(24, i => false)

  /** The polynomial in the low 24 bits of a word. */
  function PolyOf(w: bv32): Poly
  {
    seq(24, i requires 0 <= i < 24 => Bit(w, MASKS[i]))
  }

  function Plus(p: Poly, q: Poly): Poly
  {
    seq(24, i requires 0 <= i < 24 => p[i] != q[i])
  }

  function Zero(): Poly { seq(24, i => false) }

  /** x^k. */
  function Unit(k: nat): Poly { seq(24, i => i == k) }

  /** Multiplication by x modulo x^24 + the generator. */
  function TimesX(p: Poly): Poly
  {
    seq(24, i requires 0 <= i < 24 => (i > 0 && p[i - 1]) != (p[23] && PolyOf(GENERATOR)[i]))
  }

  function TimesXn(p: Poly, n: nat): Poly
  {
    if n == 0 then p else TimesX(TimesXn(p, n - 1))
  }

  function Power(n: nat): Poly
  {
    TimesXn(Unit(0), n)
  }

  /** The message as a polynomial, most significant bit first, modulo the generator. */
  function Residue(data: seq<bv8>): Poly
  {
    if data == [] then Zero()
    else Plus(TimesXn(Residue(data[..|data| - 1]), 8), PolyOf(data[|data| - 1] as bv32))
  }

  lemma PlusFacts(p: Poly, q: Poly, r: Poly)
    ensures Plus(p, q) == Plus(q, p)
    ensures Plus(Plus(p, q), r) == Plus(p, Plus(q, r))
    ensures Plus(p, p) == Zero() && Plus(p, Zero()) == p
  {
  }

  lemma TimesXLinear(p: Poly, q: Poly)
    ensures TimesX(Plus(p, q)) == Plus(TimesX(p), TimesX(q))
  {
  }

  lemma {:induction false} TimesXnLinear(p: Poly, q: Poly, n: nat)
    ensures TimesXn(Plus(p, q), n) == Plus(TimesXn(p, n), TimesXn(q, n))
  {
    if n > 0 {
      TimesXnLinear(p, q, n - 1);
      TimesXLinear(TimesXn(p, n - 1), TimesXn(q, n - 1));
    }
  }

  lemma {:induction false} TimesXnAdds(p: Poly, m: nat, n: nat)
    ensures TimesXn(TimesXn(p, m), n) == TimesXn(p, m + n)
  {
    if n > 0 {
      TimesXnAdds(p, m, n - 1);
    }
  }

  lemma {:induction false} TimesXnOfZero(n: nat)
    ensures TimesXn(Zero(), n) == Zero()
  {
    if n > 0 {
      TimesXnOfZero(n - 1);
    }
  }

  /** The generator has a constant term, so multiplication by x loses nothing. */
  lemma TimesXInjective(p: Poly, q: Poly)
    requires TimesX(p) == TimesX(q)
    ensures p == q
  {
    assert PolyOf(GENERATOR)[0];
    assert TimesX(p)[0] == TimesX(q)[0];
    forall i | 0 <= i < 23 ensures p[i] == q[i] {
      assert TimesX(p)[i + 1] == TimesX(q)[i + 1];
    }
  }

  lemma {:induction false} TimesXnInjective(p: Poly, q: Poly, n: nat)
    requires TimesXn(p, n) == TimesXn(q, n)
    ensures p == q
  {
    if n > 0 {
      TimesXInjective(TimesXn(p, n - 1), TimesXn(q, n - 1));
      TimesXnInjective(p, q, n - 1);
    }
  }

  /** Below the top, multiplication only shifts. */
  lemma {:induction false} TimesXnShifts(p: Poly, n: nat)
    requires n <= 24 && forall i :: 24 - n <= i < 24 ==> !p[i]
    ensures TimesXn(p, n) == Shifted(p, n)
  {
    if n > 0 {
      TimesXnShifts(p, n - 1);
    }
  }

  function Shifted(p: Poly, n: nat): Poly
  {
    seq(24, i requires 0 <= i < 24 => i >= n && p[i - n])
  }

  /** Leading zero bytes do not matter. */
  lemma {:induction false} LeadingZero(data: seq<bv8>)
    ensures Residue([0] + data) == Residue(data)
  {
    if data == [] {
      TimesXnOfZero(8);
      assert ([0 as bv8] + data)[..0] == [];
      assert Plus(Zero(), PolyOf(0 as bv8 as bv32)) == Zero();
    } else {
      var init := data[..|data| - 1];
      LeadingZero(init);
      assert ([0] + data)[..|data|] == [0] + init;
    }
  }

  // ---------------------------------------------------------------------
  // Words hold polynomials
  // ---------------------------------------------------------------------

  lemma PolyOfXor(a: bv32, b: bv32)
    ensures PolyOf(a ^ b) == Plus(PolyOf(a), PolyOf(b))
  {
    forall i | 0 <= i < 24 ensures Bit(a ^ b, MASKS[i]) == (Bit(a, MASKS[i]) != Bit(b, MASKS[i])) {
      MaskIsSingle(i);
      BitXor(a, b, MASKS[i]);
    }
  }

  lemma PolyOfAnd(a: bv32, b: bv32)
    ensures forall i :: 0 <= i < 24 ==> PolyOf(a & b)[i] == (PolyOf(a)[i] && PolyOf(b)[i])
  {
    forall i | 0 <= i < 24 ensures Bit(a & b, MASKS[i]) == (Bit(a, MASKS[i]) && Bit(b, MASKS[i])) {
      MaskIsSingle(i);
      BitAnd(a, b, MASKS[i]);
    }
  }

  lemma PolyOfUp(w: bv32)
    ensures PolyOf(w << 1) == Shifted(PolyOf(w), 1)
  {
    forall i | 0 <= i < 24 ensures Bit(w << 1, MASKS[i]) == (i >= 1 && Bit(w, MASKS[i - 1])) {
      MaskIsSingle(i);
      MaskDown(i);
      BitUp(w, MASKS[i]);
    }
  }

  lemma PolyOfUp8(w: bv32)
    ensures PolyOf(w << 8) == Shifted(PolyOf(w), 8)
  {
    forall i | 0 <= i < 24 ensures Bit(w << 8, MASKS[i]) == (i >= 8 && Bit(w, MASKS[i - 8])) {
      MaskIsSingle(i);
      MaskDown(i);
      BitUp8(w, MASKS[i]);
    }
  }

  lemma PolyOfUp16(w: bv32)
    ensures PolyOf(w << 16) == Shifted(PolyOf(w), 16)
  {
    forall i | 0 <= i < 24 ensures Bit(w << 16, MASKS[i]) == (i >= 16 && Bit(w, MASKS[i - 16])) {
      MaskIsSingle(i);
      MaskDown(i);
      BitUp16(w, MASKS[i]);
    }
  }

  /** Bits above the polynomial never reach back into it. */
  lemma PolyOfLow(w: bv32)
    ensures PolyOf(w & LOW24) == PolyOf(w) && w & LOW24 <= LOW24
  {
    PolyOfAnd(w, LOW24);
    AllOnes();
  }

  lemma AllOnes()
    ensures forall i :: 0 <= i < 24 ==> PolyOf(LOW24)[i]
  {
  }

  /** Two 24-bit words holding the same polynomial are the same word. */
  lemma PolyOfUnique(a: bv32, b: bv32)
    requires a <= LOW24 && b <= LOW24 && PolyOf(a) == PolyOf(b)
    ensures a == b
  {
    forall i | 0 <= i < 24 ensures Bit(a, MASKS[i]) == Bit(b, MASKS[i]) {
      assert PolyOf(a)[i] == PolyOf(b)[i];
    }
    if a != b {
      var m := DifferingBit(a, b);
      var i := Place(m);
    }
  }

  lemma DifferingBit(a: bv32, b: bv32) returns (m: bv32)
    requires a != b && a <= LOW24 && b <= LOW24
    ensures Single(m) && Bit(a, m) != Bit(b, m) && m <= 0x80_0000
  {
    Different(a, b);
    XorLow24(a, b);
    m := LowestBitOf(a ^ b);
    BitXor(a, b, m);
  }

  lemma Different(a: bv32, b: bv32)
    requires a != b
    ensures a ^ b != 0
  {
  }

  lemma XorLow24(a: bv32, b: bv32)
    requires a <= LOW24 && b <= LOW24
    ensures a ^ b <= LOW24
  {
  }

  lemma LowestBitOf(d: bv32) returns (m: bv32)
    requires d != 0 && d <= LOW24
    ensures Single(m) && Bit(d, m) && m <= 0x80_0000
  {
    m := d & (0 - d);
  }

  /** A single bit is one of the masks. */
  lemma SingleIsMask(m: bv32)
    requires Single(m) && m <= 0x80_0000
    ensures m == 0x1 || m == 0x2 || m == 0x4 || m == 0x8 || m == 0x10 || m == 0x20
         || m == 0x40 || m == 0x80 || m == 0x100 || m == 0x200 || m == 0x400 || m == 0x800
         || m == 0x1000 || m == 0x2000 || m == 0x4000 || m == 0x8000 || m == 0x10000 || m == 0x20000
         || m == 0x40000 || m == 0x80000 || m == 0x100000 || m == 0x200000 || m == 0x400000 || m == 0x800000
  {
  }

  lemma Place(m: bv32) returns (i: nat)
    requires Single(m) && m <= 0x80_0000
    ensures i < 24 && MASKS[i] == m
  {
    SingleIsMask(m);
    assert m == MASKS[0] || m == MASKS[1] || m == MASKS[2] || m == MASKS[3] || m == MASKS[4] || m == MASKS[5]
        || m == MASKS[6] || m == MASKS[7] || m == MASKS[8] || m == MASKS[9] || m == MASKS[10] || m == MASKS[11]
        || m == MASKS[12] || m == MASKS[13] || m == MASKS[14] || m == MASKS[15] || m == MASKS[16] || m == MASKS[17]
        || m == MASKS[18] || m == MASKS[19] || m == MASKS[20] || m == MASKS[21] || m == MASKS[22] || m == MASKS[23];
    i :| 0 <= i < 24 && MASKS[i] == m;
  }

  // ---------------------------------------------------------------------
  // Table and byte-wise computation
  // ---------------------------------------------------------------------

  /** A table entry: eight bits of division of a top byte. */
  ghost predicate Entry(word: bv32, i: nat)
    requires i < 256
  {
    word <= LOW24 && PolyOf(word) == TimesXn(PolyOf((i as bv8 as bv32) << 16), 8)
  }

  ghost predicate Tabulated(table: seq<bv32>)
  {
    |table| == 256 && forall i :: 0 <= i < 256 ==> Entry(table[i], i)
  }

  method BuildTable() returns (table: seq<bv32>)
    ensures Tabulated(table)
  {
    table := [];
    for i := 0 to 256
      invariant |table| == i
      invariant forall k :: 0 <= k < i ==> Entry(table[k], k)
    {
      var c := Divide((i as bv8 as bv32) << 16);
      table := table + [c];
    }
  }

  method Divide(top: bv32) returns (c: bv32)
    ensures c <= LOW24 && PolyOf(c) == TimesXn(PolyOf(top), 8)
  {
    c := top;
    for j := 0 to 8
      invariant PolyOf(c) == TimesXn(PolyOf(top), j)
    {
      c := ShiftOut(c);
    }
    c := Truncate(c);
  }

  method ShiftOut(c: bv32) returns (d: bv32)
    ensures PolyOf(d) == TimesX(PolyOf(c))
  {
    ShiftedOut(c);
    if c & 0x80_0000 != 0 {
      d := (c << 1) ^ GENERATOR;
    } else {
      d := c << 1;
    }
  }

  method Truncate(c: bv32) returns (d: bv32)
    ensures d <= LOW24 && PolyOf(d) == PolyOf(c)
  {
    PolyOfLow(c);
    d := c & 0x00FF_FFFF;
  }

  /** One step of the division register is multiplication by x. */
  lemma ShiftedOut(c: bv32)
    ensures PolyOf(if c & 0x80_0000 != 0 then (c << 1) ^ GENERATOR else c << 1) == TimesX(PolyOf(c))
  {
    PolyOfUp(c);
    TopCoefficient(c);
    if c & 0x80_0000 != 0 {
      PolyOfXor(c << 1, GENERATOR);
    }
  }

  lemma TopCoefficient(c: bv32)
    ensures PolyOf(c)[23] == (c & 0x80_0000 != 0)
  {
  }

  method Crc24(data: seq<bv8>, table: seq<bv32>) returns (rem: bv32)
    requires Tabulated(table)
    ensures rem <= LOW24 && PolyOf(rem) == TimesXn(Residue(data), 24)
  {
    rem := 0;
    ZeroWord();
    TimesXnOfZero(24);
    for n := 0 to |data|
      invariant rem <= LOW24 && PolyOf(rem) == TimesXn(Residue(data[..n]), 24)
    {
      assert data[..n + 1][..n] == data[..n];
      rem := Absorb(rem, data[n], table, Residue(data[..n]));
    }
    assert data[..|data|] == data;
  }

  /** A table lookup divides one byte further. */
  method Absorb(rem: bv32, byte: bv8, table: seq<bv32>, ghost before: Poly) returns (next: bv32)
    requires Tabulated(table)
    requires rem <= LOW24 && PolyOf(rem) == TimesXn(before, 24)
    ensures next <= LOW24 && PolyOf(next) == TimesXn(Plus(TimesXn(before, 8), PolyOf(byte as bv32)), 24)
  {
    var idx := TableIndex(rem, byte);
    IndexWord(idx);
    var entry := table[idx as int];
    next := Fold(rem, entry);
    NextByte(before, PolyOf(byte as bv32), PolyOf((idx as bv32) << 16), Below16(PolyOf(rem)));
  }

  method TableIndex(rem: bv32, byte: bv8) returns (idx: bv8)
    requires rem <= LOW24
    ensures Plus(PolyOf((idx as bv32) << 16), Below16(PolyOf(rem)))
        == Plus(PolyOf(rem), TimesXn(PolyOf(byte as bv32), 16))
  {
    idx := byte ^ (((rem & 0xFF_0000) >> 16) as bv8);
    IndexSplits(rem, byte, idx);
  }

  method Fold(rem: bv32, entry: bv32) returns (next: bv32)
    ensures next <= LOW24 && PolyOf(next) == Plus(TimesXn(Below16(PolyOf(rem)), 8), PolyOf(entry))
  {
    PolyOfUp8(rem);
    TimesXnShifts(Below16(PolyOf(rem)), 8);
    assert Shifted(PolyOf(rem), 8) == Shifted(Below16(PolyOf(rem)), 8);
    next := Add(rem << 8, entry);
  }

  function Below16(p: Poly): Poly
  {
    seq(24, i requires 0 <= i < 24 => i < 16 && p[i])
  }

  function Below8(p: Poly): Poly
  {
    seq(24, i requires 0 <= i < 24 => i < 8 && p[i])
  }

  lemma IndexWord(idx: bv8)
    ensures (idx as int) as bv8 == idx
  {
  }

  lemma NextByte(before: Poly, byte: Poly, high: Poly, low: Poly)
    requires Plus(high, low) == Plus(TimesXn(before, 24), TimesXn(byte, 16))
    ensures Plus(TimesXn(low, 8), TimesXn(high, 8)) == TimesXn(Plus(TimesXn(before, 8), byte), 24)
  {
    PlusFacts(TimesXn(low, 8), TimesXn(high, 8), low);
    TimesXnLinear(high, low, 8);
    TimesXnLinear(TimesXn(before, 24), TimesXn(byte, 16), 8);
    TimesXnAdds(before, 24, 8);
    TimesXnAdds(before, 8, 24);
    TimesXnAdds(byte, 16, 8);
    TimesXnLinear(TimesXn(before, 8), byte, 24);
  }

  lemma ZeroWord()
    ensures PolyOf(0) == Zero()
  {
  }

  lemma LowHalf(w: bv32)
    ensures PolyOf(w & 0xFFFF) == Below16(PolyOf(w))
  {
    LowOnes();
    MaskedBelow(w, 0xFFFF, w & 0xFFFF, 16);
  }

  lemma LowByte(w: bv32)
    ensures PolyOf(w & 0xFF) == Below8(PolyOf(w))
  {
    LowOnes();
    MaskedBelow(w, 0xFF, w & 0xFF, 8);
  }

  lemma MaskedBelow(w: bv32, mask: bv32, low: bv32, n: nat)
    requires low == w & mask && forall i :: 0 <= i < 24 ==> PolyOf(mask)[i] == (i < n)
    ensures forall i :: 0 <= i < 24 ==> PolyOf(low)[i] == (i < n && PolyOf(w)[i])
  {
    PolyOfAnd(w, mask);
  }

  lemma LowOnes()
    ensures forall i :: 0 <= i < 24 ==> PolyOf(0xFF)[i] == (i < 8) && PolyOf(0xFFFF)[i] == (i < 16)
  {
  }

  lemma ByteIsSmall(b: bv8)
    ensures b as bv32 & 0xFF == b as bv32
  {
  }

  lemma WordSplits(rem: bv32, byte: bv8, idx: bv8)
    requires rem <= LOW24 && idx == byte ^ (((rem & 0xFF_0000) >> 16) as bv8)
    ensures ((idx as bv32) << 16) ^ (rem & 0xFFFF) == rem ^ ((byte as bv32) << 16)
  {
  }

  lemma IndexSplits(rem: bv32, byte: bv8, idx: bv8)
    requires rem <= LOW24 && idx == byte ^ (((rem & 0xFF_0000) >> 16) as bv8)
    ensures Plus(PolyOf((idx as bv32) << 16), Below16(PolyOf(rem)))
        == Plus(PolyOf(rem), TimesXn(PolyOf(byte as bv32), 16))
  {
    WordSplits(rem, byte, idx);
    PolyOfXor((idx as bv32) << 16, rem & 0xFFFF);
    LowHalf(rem);
    PolyOfXor(rem, (byte as bv32) << 16);
    ByteUp(byte);
  }

  lemma ByteUp(byte: bv8)
    ensures PolyOf((byte as bv32) << 16) == TimesXn(PolyOf(byte as bv32), 16)
    ensures PolyOf((byte as bv32) << 8) == TimesXn(PolyOf(byte as bv32), 8)
  {
    var w := byte as bv32;
    ByteIsSmall(byte);
    LowByte(w);
    PolyOfUp16(w);
    PolyOfUp8(w);
    TimesXnShifts(PolyOf(w), 16);
    TimesXnShifts(PolyOf(w), 8);
  }

  /** The remainder of the payload against the trailing parity: the residue of the whole message. */
  method Crc24Parity(msg: seq<bv8>, table: seq<bv32>) returns (rem: bv32)
    requires |msg| >= 3 && Tabulated(table)
    ensures rem <= LOW24 && PolyOf(rem) == Residue(msg)
  {
    var n := |msg|;
    assert msg == msg[..n - 3] + [msg[n - 3]] + [msg[n - 2]] + [msg[n - 1]];
    rem := ParityOf(msg[..n - 3], msg[n - 3], msg[n - 2], msg[n - 1], table);
  }

  method ParityOf(data: seq<bv8>, x: bv8, y: bv8, z: bv8, table: seq<bv32>) returns (rem: bv32)
    requires Tabulated(table)
    ensures rem <= LOW24 && PolyOf(rem) == Residue(data + [x] + [y] + [z])
  {
    var payload := Crc24(data, table);
    rem := FoldParity(payload, x, y, z);
    ThreeMore(data, x, y, z, PolyOf(x as bv32), PolyOf(y as bv32), PolyOf(z as bv32));
  }

  method FoldParity(payload: bv32, a: bv8, b: bv8, c: bv8) returns (rem: bv32)
    ensures rem <= LOW24
    ensures PolyOf(rem)
         == Plus(Plus(Plus(PolyOf(payload), TimesXn(PolyOf(a as bv32), 16)), TimesXn(PolyOf(b as bv32), 8)),
             PolyOf(c as bv32))
  {
    ByteUp(a);
    ByteUp(b);
    rem := Add(payload, (a as bv32) << 16);
    rem := Add(rem, (b as bv32) << 8);
    rem := Add(rem, c as bv32);
  }

  method Add(rem: bv32, word: bv32) returns (sum: bv32)
    ensures sum <= LOW24 && PolyOf(sum) == Plus(PolyOf(rem), PolyOf(word))
  {
    PolyOfXor(rem, word);
    PolyOfLow(rem ^ word);
    sum := (rem ^ word) & 0x00FF_FFFF;
  }

  lemma ResidueAppends(data: seq<bv8>, b: bv8, p: Poly)
    requires p == PolyOf(b as bv32)
    ensures Residue(data + [b]) == Plus(TimesXn(Residue(data), 8), p)
  {
    assert (data + [b])[..|data|] == data;
  }

  /** The residue of a message from that of its payload. */
  lemma ThreeMore(payload: seq<bv8>, x: bv8, y: bv8, z: bv8, a: Poly, b: Poly, c: Poly)
    requires a == PolyOf(x as bv32) && b == PolyOf(y as bv32) && c == PolyOf(z as bv32)
    ensures Residue(payload + [x] + [y] + [z])
         == Plus(Plus(Plus(TimesXn(Residue(payload), 24), TimesXn(a, 16)), TimesXn(b, 8)), c)
  {
    var two := payload + [x] + [y];
    ResidueAppends(payload, x, a);
    ResidueAppends(payload + [x], y, b);
    ResidueAppends(two, z, c);
    TwoBytes(Residue(payload), a, b, Residue(payload + [x]), Residue(two));
  }

  lemma TwoBytes(r: Poly, a: Poly, b: Poly, r1: Poly, r2: Poly)
    requires r1 == Plus(TimesXn(r, 8), a) && r2 == Plus(TimesXn(r1, 8), b)
    ensures TimesXn(r2, 8) == Plus(Plus(TimesXn(r, 24), TimesXn(a, 16)), TimesXn(b, 8))
  {
    TimesXnLinear(TimesXn(r, 8), a, 8);
    TimesXnAdds(r, 8, 8);
    TimesXnLinear(TimesXn(r1, 8), b, 8);
    TimesXnLinear(TimesXn(r, 16), TimesXn(a, 8), 8);
    TimesXnAdds(r, 16, 8);
    TimesXnAdds(a, 8, 8);
  }
}
