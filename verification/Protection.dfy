/**
 Parity that protects only the high coefficients of a syndrome, and what a
 single-bit error leaves there.
 */
module Protection {
  import opened Crc
  import opened PowerTable
  import opened Repair

  /** A syndrome vanishes wherever the format protects it. */
  predicate Protected(p: Poly, overlay: nat)
  {
    forall i :: overlay <= i < 24 ==> !p[i]
  }

  ghost predicate Masks(mask: bv32, overlay: nat)
  {
    forall i :: 0 <= i < 24 ==> PolyOf(mask)[i] == (i >= overlay)
  }

  lemma MaskTerms()
    ensures Masks(0xFFFF80, 7) && Masks(0xFFFFFF, 0)
  {
  }

  lemma MaskedLow24(s: bv32, mask: bv32)
    requires s <= LOW24
    ensures s & mask <= LOW24
  {
  }

  /** The masked word is zero exactly when the protected syndrome is. */
  lemma MaskTest(s: bv32, mask: bv32, masked: bv32, overlay: nat)
    requires s <= LOW24 && Masks(mask, overlay) && masked == s & mask
    ensures masked == 0 <==> Protected(PolyOf(s), overlay)
  {
    MaskedLow24(s, mask);
    PolyOfAnd(s, mask);
    MaskedPoly(PolyOf(masked), PolyOf(s), overlay);
    ZeroTest(masked);
  }

  lemma MaskedPoly(masked: Poly, p: Poly, overlay: nat)
    requires forall i :: 0 <= i < 24 ==> masked[i] == (p[i] && i >= overlay)
    ensures masked == Zero() <==> Protected(p, overlay)
  {
    if masked == Zero() {
      forall i | overlay <= i < 24 ensures !p[i] {
        assert masked[i] == Zero()[i];
      }
    }
  }

  method Vanishes(s: bv32, mask: bv32, ghost overlay: nat) returns (zero: bool)
    requires s <= LOW24 && Masks(mask, overlay)
    ensures zero == Protected(PolyOf(s), overlay)
  {
    MaskTest(s, mask, s & mask, overlay);
    zero := s & mask == 0;
  }

  /** Two words agree under the mask exactly when their sum is protected. */
  method Agree(a: bv32, b: bv32, mask: bv32, ghost overlay: nat) returns (same: bool)
    requires a <= LOW24 && b <= LOW24 && Masks(mask, overlay)
    ensures same == Protected(Plus(PolyOf(a), PolyOf(b)), overlay)
  {
    SameUnderMask(a, b, mask, overlay, a & mask, b & mask, a ^ b);
    same := a & mask == b & mask;
  }

  lemma SameUnderMask(a: bv32, b: bv32, mask: bv32, overlay: nat, x: bv32, y: bv32, sum: bv32)
    requires a <= LOW24 && b <= LOW24 && Masks(mask, overlay) && x == a & mask && y == b & mask && sum == a ^ b
    ensures x == y <==> Protected(Plus(PolyOf(a), PolyOf(b)), overlay)
  {
    assert sum <= LOW24 by { XorLow24(a, b); }
    assert PolyOf(sum) == Plus(PolyOf(a), PolyOf(b)) by { PolyOfXor(a, b); }
    assert sum & mask == x ^ y by { AndOverXor(a, b, mask); }
    MaskTest(sum, mask, sum & mask, overlay);
    XorZero(x, y);
  }

  lemma AndOverXor(a: bv32, b: bv32, mask: bv32)
    ensures (a ^ b) & mask == (a & mask) ^ (b & mask)
  {
  }

  lemma XorZero(a: bv32, b: bv32)
    ensures a ^ b == 0 <==> a == b
  {
  }

  lemma SumProtected(p: Poly, q: Poly, overlay: nat)
    ensures Protected(q, overlay) ==> (Protected(Plus(p, q), overlay) <==> Protected(p, overlay))
    ensures Protected(p, overlay) ==> (Protected(Plus(p, q), overlay) <==> Protected(q, overlay))
  {
    if Protected(Plus(p, q), overlay) {
      assert forall i :: overlay <= i < 24 ==> Plus(p, q)[i] == (p[i] != q[i]);
    }
  }

  // ---------------------------------------------------------------------
  // Single-bit syndromes above an interrogator overlay
  // ---------------------------------------------------------------------

  const HIGH: bv32 := 0xFFFF80

  /** The power of x, from the seventh to the fifty-fifth, that has these high coefficients; zero if there are none. */
  function Index(h: bv32): nat
  {
    if h == 0 then 0 else
    if Bit(h, 0x1000) then
      (if Bit(h, 0x10000) then
        (if Bit(h, 0x400) then
          (if Bit(h, 0x100) then
            (if Bit(h, 0x800) then 48 else 50)
          else
            (if Bit(h, 0x800) then 45 else (if Bit(h, 0x2000) then 24 else 40)))
        else
          (if Bit(h, 0x80) then (if Bit(h, 0x200) then 49 else 54) else (if Bit(h, 0x100) then 42 else 39)))
      else
        (if Bit(h, 0x2000) then
          (if Bit(h, 0x800) then (if Bit(h, 0x4000) then 46 else 26) else (if Bit(h, 0x200) then 34 else 27))
        else
          (if Bit(h, 0x200) then
            (if Bit(h, 0x80) then 51 else 33)
          else
            (if Bit(h, 0x400) then 25 else (if Bit(h, 0x800) then 36 else 12)))))
    else
      (if Bit(h, 0x400) then
        (if Bit(h, 0x4000) then
          (if Bit(h, 0x2000) then (if Bit(h, 0x200) then 53 else 35) else (if Bit(h, 0x10000) then 44 else 37))
        else
          (if Bit(h, 0x80) then
            (if Bit(h, 0x100) then 32 else (if Bit(h, 0x200) then 31 else 47))
          else
            (if Bit(h, 0x100) then 55 else 10)))
      else
        (if Bit(h, 0x8000) then
          (if Bit(h, 0x10000) then
            (if Bit(h, 0x80) then (if Bit(h, 0x100) then 29 else 41) else (if Bit(h, 0x200) then 30 else 52))
          else
            (if Bit(h, 0x2000) then (if Bit(h, 0x80) then 28 else 43) else (if Bit(h, 0x800) then 38 else 15)))
        else
          (if Bit(h, 0x80) then 7
          else if Bit(h, 0x100) then 8
          else if Bit(h, 0x200) then 9
          else if Bit(h, 0x800) then 11
          else if Bit(h, 0x2000) then 13
          else if Bit(h, 0x4000) then 14
          else if Bit(h, 0x10000) then 16
          else if Bit(h, 0x20000) then 17
          else if Bit(h, 0x40000) then 18
          else if Bit(h, 0x80000) then 19
          else if Bit(h, 0x100000) then 20
          else if Bit(h, 0x200000) then 21
          else if Bit(h, 0x400000) then 22
          else 23)))
  }

  predicate TellsPower(w: bv32, k: nat) { Index(w & HIGH) == k }

  lemma SameHigh(u: bv32, v: bv32, a: nat, b: nat)
    requires u & HIGH == v & HIGH && TellsPower(u, a) && TellsPower(v, b)
    ensures a == b
  {
  }

  lemma TellsFrom7()
    ensures Throughout(TellsPower, 0x000080, 7, 7, 0x004000)
  {
  }

  lemma TellsFrom14()
    ensures Throughout(TellsPower, 0x004000, 14, 7, 0x200000)
  {
  }

  lemma TellsFrom21()
    ensures Throughout(TellsPower, 0x200000, 21, 7, 0x00E0D8)
  {
  }

  lemma TellsFrom28()
    ensures Throughout(TellsPower, 0x00E0D8, 28, 7, 0x706C00)
  {
  }

  lemma TellsFrom35()
    ensures Throughout(TellsPower, 0x706C00, 35, 7, 0x375104)
  {
  }

  lemma TellsFrom42()
    ensures Throughout(TellsPower, 0x375104, 42, 7, 0x57FAA6)
  {
  }

  lemma TellsFrom49()
    ensures Throughout(TellsPower, 0x57FAA6, 49, 7, 0x030ACE)
  {
  }

  lemma TellsHolds()
    ensures Throughout(TellsPower, 0x000080, 7, 49, 0x030ACE)
  {
    TellsFrom7();
    TellsFrom14();
    TellsFrom21();
    TellsFrom28();
    TellsFrom35();
    TellsFrom42();
    TellsFrom49();
    FourJoined(TellsPower, 0x000080, 0x004000, 0x200000, 0x00E0D8, 0x706C00, 7, 7);
    Joined(TellsPower, 0x000080, 7, 28, 0x706C00, 7, 0x375104);
    Joined(TellsPower, 0x000080, 7, 35, 0x375104, 7, 0x57FAA6);
    Joined(TellsPower, 0x000080, 7, 42, 0x57FAA6, 7, 0x030ACE);
  }

  /** Every power from the seventh to the fifty-fifth is told by its high coefficients. */
  lemma HighWord(a: nat) returns (word: bv32)
    requires 7 <= a <= 55
    ensures word <= LOW24 && PolyOf(word) == Power(a) && TellsPower(word, a)
  {
    TellsHolds();
    SeventhPower();
    word := WordWithin(TellsPower, 0x000080, 7, 49, 0x030ACE, a);
  }

  lemma SeventhPower()
    ensures PolyOf(0x80) == Power(7)
  {
    SmallPower(7);
    forall i | 0 <= i < 24 ensures Bit(0x80, MASKS[i]) == (i == 7) {
      MasksApart(7, i);
    }
  }

  /** No single-bit error beyond the overlay hides under it. */
  lemma HighPartPresent(a: nat)
    requires 7 <= a <= 55
    ensures !Protected(Power(a), 7)
  {
    var w := HighWord(a);
    MaskTerms();
    MaskTest(w, HIGH, w & HIGH, 7);
  }

  lemma LowPartOnly(a: nat)
    requires a < 7
    ensures Protected(Power(a), 7)
  {
    SmallPower(a);
  }

  lemma SameHighTerms(u: bv32, v: bv32)
    requires u <= LOW24 && v <= LOW24 && Protected(Plus(PolyOf(u), PolyOf(v)), 7)
    ensures u & HIGH == v & HIGH
  {
    MaskTerms();
    SameUnderMask(u, v, HIGH, 7, u & HIGH, v & HIGH, u ^ v);
  }

  /** Two single-bit errors beyond the overlay are told apart above it. */
  lemma HighPartsDiffer(a: nat, b: nat)
    requires 7 <= a <= 55 && 7 <= b <= 55 && Protected(Plus(Power(a), Power(b)), 7)
    ensures a == b
  {
    var u := HighWord(a);
    var v := HighWord(b);
    SameHighTerms(u, v);
    SameHigh(u, v, a, b);
  }
}
